/** Removal of what older versions of the daemon left in the shared inet tables
    "filter" and "nat": daemon-owned rules, chains and sets, and nothing else. */
module Legacy {
  import opened Ids
  import opened Machine
  import opened Kernel
  import opened Flush
  import opened Listing
  import opened NftState

  predicate LegacyName(n: TableName) {
    n.LegacyFilter? || n.LegacyNat?
  }

  // -------------------------------------------------- what the daemon owns

  predicate HasPrefix(s: string, p: string) {
    |p| <= |s| && s[..|p|] == p
  }

  /** Comments of the rules the daemon put into base chains. */
  predicate BaseNote(c: Comment) {
    c.InterfaceFilterNote?
  }

  /** Comments of the rules the daemon put into its own chains. */
  predicate ChainNote(c: Comment) {
    match c
    case NoComment => false
    case TextNote(s) => HasPrefix(s, "policy:") || HasPrefix(s, "common rule:") || HasPrefix(s, "allow_icmp_")
    case _ => true
  }

  predicate DaemonChain(c: ChainId) {
    c.EntryChain? || c.CommonChain?
  }

  predicate DaemonSet(s: SetId, obj: SetObj) {
    s.PodInterfaces? && (obj.comment == "Pod interfaces" || obj.comment == "Pod interfaces NAT")
  }

  /** The daemon owns the rule, by its comment and the chain it is in. */
  predicate Owned(c: ChainId, r: Rule) {
    if c.BaseChain? then BaseNote(r.comment) else DaemonChain(c) && ChainNote(r.comment)
  }

  /** The rules of a chain that the daemon does not own, in order. */
  function Foreign(c: ChainId, l: seq<Installed>): seq<Installed> {
    if l == [] then []
    else Foreign(c, l[..|l| - 1]) + if Owned(c, l[|l| - 1].rule) then [] else [l[|l| - 1]]
  }

  // ------------------------------------------------------------- references

  predicate RefersTo(r: Rule, c: ChainId) {
    exists i :: 0 <= i < |r.exprs| && (r.exprs[i] == Verdict(Jump(c)) || r.exprs[i] == Verdict(Goto(c)))
  }

  ghost predicate Referenced(tb: Table, c: ChainId) {
    exists x, i :: x in tb.chains && 0 <= i < |tb.chains[x]| && RefersTo(tb.chains[x][i].rule, c)
  }

  /** Every chain a rule refers to exists. */
  ghost predicate NoDangling(tb: Table) {
    forall c :: Referenced(tb, c) ==> c in tb.chains
  }

  /** Backwards over the expressions. */
  method RuleReferencesChain(r: Rule, c: ChainId) returns (b: bool)
    ensures b <==> RefersTo(r, c)
  {
    var i := |r.exprs| - 1;
    while i >= 0
      invariant -1 <= i < |r.exprs|
      invariant forall j :: i < j < |r.exprs| ==> r.exprs[j] != Verdict(Jump(c)) && r.exprs[j] != Verdict(Goto(c))
    {
      if r.exprs[i] == Verdict(Jump(c)) || r.exprs[i] == Verdict(Goto(c)) {
        return true;
      }
      i := i - 1;
    }
    return false;
  }

  method LegacyChainReferenced(tb: Table, c: ChainId) returns (b: bool)
    ensures b <==> Referenced(tb, c)
  {
    var cs := Enumerate(tb.chains.Keys);
    for a := 0 to |cs|
      invariant forall x, i :: x in cs[..a] && 0 <= i < |tb.chains[x]| ==> !RefersTo(tb.chains[x][i].rule, c)
    {
      var x := cs[a];
      assert x in cs && forall y :: y in cs[..a + 1] <==> y in cs[..a] || y == x;
      var l := tb.chains[x];
      for i := 0 to |l|
        invariant forall j :: 0 <= j < i ==> !RefersTo(l[j].rule, c)
      {
        var hit := RuleReferencesChain(l[i].rule, c);
        if hit {
          return true;
        }
      }
    }
    assert cs[..|cs|] == cs;
    return false;
  }

  // ----------------------------------------------------------- specification

  ghost function BaseClean(tb: Table): Table {
    tb.(chains := map c | c in tb.chains :: if c.BaseChain? then Foreign(c, tb.chains[c]) else tb.chains[c])
  }

  /** One chain of the daemon: its rules go, and the chain too if that leaves it
      empty and no rule refers to it. */
  ghost function ChainStep(tb: Table, c: ChainId): Table {
    if c !in tb.chains || !DaemonChain(c) then tb
    else
      var tb' := Purged(tb, c);
      if tb'.chains[c] == [] && !Referenced(tb', c) then tb'.(chains := tb'.chains - {c}) else tb'
  }

  ghost function Purged(tb: Table, c: ChainId): Table
    requires c in tb.chains
  {
    tb.(chains := tb.chains[c := Foreign(c, tb.chains[c])])
  }

  ghost function ChainSteps(tb: Table, cs: seq<ChainId>): Table {
    if cs == [] then tb else ChainStep(ChainSteps(tb, cs[..|cs| - 1]), cs[|cs| - 1])
  }

  ghost function SetsClean(tb: Table): Table {
    tb.(sets := map s | s in tb.sets && !DaemonSet(s, tb.sets[s]) :: tb.sets[s])
  }

  /** A legacy table after a run that found its chains in the order cs. */
  ghost function Cleaned(tb: Table, cs: seq<ChainId>): Table {
    SetsClean(ChainSteps(BaseClean(tb), cs))
  }

  ghost predicate Lists(cs: seq<ChainId>, tb: Table) {
    (forall c :: c in cs <==> c in tb.chains) && forall i, j :: 0 <= i < j < |cs| ==> cs[i] != cs[j]
  }

  // ------------------------------------------------------------------ safety

  /** Nothing but daemon-owned objects has gone from a to b. */
  ghost predicate Spares(a: Table, b: Table) {
    && (forall c :: c in b.chains ==>
          c in a.chains && (b.chains[c] == a.chains[c] || b.chains[c] == Foreign(c, a.chains[c])))
    && (forall c :: c in a.chains && c !in b.chains ==>
          DaemonChain(c) && Foreign(c, a.chains[c]) == [] && !Referenced(b, c))
    && (forall s :: s in a.sets && !DaemonSet(s, a.sets[s]) ==> s in b.sets)
    && (forall s :: s in b.sets ==> s in a.sets && b.sets[s] == a.sets[s])
    && a.next == b.next
  }

  lemma {:induction false} ForeignMembers(c: ChainId, l: seq<Installed>, x: Installed)
    ensures x in Foreign(c, l) <==> x in l && !Owned(c, x.rule)
  {
    if l != [] {
      ForeignMembers(c, l[..|l| - 1], x);
    }
  }

  lemma ForeignSingle(c: ChainId, x: Installed)
    ensures Foreign(c, [x]) == (if Owned(c, x.rule) then [] else [x]) && Foreign(c, []) == []
  {
    hide Owned;
    assert [x][..0] == [];
  }

  lemma {:induction false} ForeignTwice(c: ChainId, l: seq<Installed>)
    ensures Foreign(c, Foreign(c, l)) == Foreign(c, l)
  {
    hide Foreign, Owned;
    if l == [] {
      ForeignNone(c);
    } else {
      var init, x := l[..|l| - 1], l[|l| - 1];
      var last := if Owned(c, x.rule) then [] else [x];
      ForeignTwice(c, init);
      ForeignSingle(c, x);
      assert init + [x] == l;
      ForeignConcat(c, init, [x]);
      ForeignConcat(c, Foreign(c, init), last);
    }
  }

  lemma ForeignNone(c: ChainId)
    ensures Foreign(c, []) == []
  {
  }

  lemma {:induction false} ForeignConcat(c: ChainId, a: seq<Installed>, b: seq<Installed>)
    ensures Foreign(c, a + b) == Foreign(c, a) + Foreign(c, b)
  {
    if b == [] {
      assert a + b == a;
    } else {
      var n := |b| - 1;
      assert (a + b)[..|a| + n] == a + b[..n];
      ForeignConcat(c, a, b[..n]);
    }
  }

  /** Fewer rules, fewer references. */
  lemma FewerReferences(a: Table, b: Table, c: ChainId)
    requires forall x :: x in b.chains ==>
               x in a.chains && (b.chains[x] == a.chains[x] || b.chains[x] == Foreign(x, a.chains[x]))
    requires Referenced(b, c)
    ensures Referenced(a, c)
  {
    var x, i :| x in b.chains && 0 <= i < |b.chains[x]| && RefersTo(b.chains[x][i].rule, c);
    ForeignMembers(x, a.chains[x], b.chains[x][i]);
    assert b.chains[x][i] in a.chains[x];
    var j :| 0 <= j < |a.chains[x]| && a.chains[x][j] == b.chains[x][i];
  }

  lemma SparesItself(tb: Table)
    ensures Spares(tb, tb)
  {
  }

  lemma SparesTrans(a: Table, b: Table, c: Table)
    requires Spares(a, b) && Spares(b, c)
    ensures Spares(a, c)
  {
    hide Referenced, DaemonSet;
    forall x | x in c.chains
      ensures x in a.chains && (c.chains[x] == a.chains[x] || c.chains[x] == Foreign(x, a.chains[x]))
    {
      ForeignTwice(x, a.chains[x]);
    }
    forall x | x in a.chains && x !in c.chains
      ensures DaemonChain(x) && Foreign(x, a.chains[x]) == [] && !Referenced(c, x)
    {
      if x in b.chains {
        ForeignTwice(x, a.chains[x]);
      } else if Referenced(c, x) {
        FewerReferences(b, c, x);
      }
    }
  }

  lemma PurgedSpares(tb: Table, c: ChainId)
    requires c in tb.chains
    ensures Spares(tb, Purged(tb, c))
  {
  }

  lemma StepSpares(tb: Table, c: ChainId)
    ensures Spares(tb, ChainStep(tb, c))
  {
    SparesItself(tb);
    if c in tb.chains && DaemonChain(c) {
      var p, b := Purged(tb, c), ChainStep(tb, c);
      assert Spares(tb, p);
      assert b.sets == tb.sets && b.next == tb.next;
      if c !in b.chains && Referenced(b, c) {
        hide DaemonSet, RefersTo;
        FewerReferences(p, b, c);
      }
    }
  }

  lemma {:induction false} StepsSpare(tb: Table, cs: seq<ChainId>)
    ensures Spares(tb, ChainSteps(tb, cs))
  {
    hide Spares, ChainStep;
    if cs == [] {
      SparesItself(tb);
    } else {
      StepsSpare(tb, cs[..|cs| - 1]);
      var s := ChainSteps(tb, cs[..|cs| - 1]);
      StepSpares(s, cs[|cs| - 1]);
      SparesTrans(tb, s, ChainStep(s, cs[|cs| - 1]));
    }
  }

  lemma EndsSpare(tb: Table)
    ensures Spares(tb, BaseClean(tb)) && Spares(tb, SetsClean(tb))
  {
    assert SetsClean(tb).chains == tb.chains;
  }

  /** Legacy cleanup is safe, in whatever order the chains are listed: rules not
      owned by the daemon stay, in order; a chain goes only if it is the daemon's,
      is left empty and nothing refers to it any more; no jump is left dangling. */
  lemma CleanupSafe(tb: Table, cs: seq<ChainId>)
    ensures Spares(tb, Cleaned(tb, cs))
    ensures NoDangling(tb) ==> NoDangling(Cleaned(tb, cs))
  {
    var a := BaseClean(tb);
    var b := ChainSteps(a, cs);
    var z := SetsClean(b);
    EndsSpare(tb);
    StepsSpare(a, cs);
    EndsSpare(b);
    hide BaseClean, ChainSteps, SetsClean, Referenced;
    SparesTrans(tb, a, b);
    SparesTrans(tb, b, z);
    if NoDangling(tb) {
      forall c | Referenced(z, c) ensures c in z.chains {
        FewerReferences(tb, z, c);
      }
    }
  }

  /** Every rule the daemon owns is gone. */
  ghost predicate NoOwned(tb: Table) {
    forall c, x :: c in tb.chains && x in tb.chains[c] ==> !Owned(c, x.rule)
  }

  lemma {:induction false} StepsPurge(tb: Table, cs: seq<ChainId>, c: ChainId)
    requires c in ChainSteps(tb, cs).chains
    ensures c in tb.chains
    ensures ChainSteps(tb, cs).chains[c] == if DaemonChain(c) && c in cs then Foreign(c, tb.chains[c]) else tb.chains[c]
  {
    hide Foreign, Referenced;
    if cs != [] {
      var n := |cs| - 1;
      StepsPurge(tb, cs[..n], c);
      ForeignTwice(c, tb.chains[c]);
    }
  }

  lemma CleanedChain(tb: Table, cs: seq<ChainId>, c: ChainId)
    requires Lists(cs, tb) && c in Cleaned(tb, cs).chains
    ensures c in tb.chains && Cleaned(tb, cs).chains[c] == Foreign(c, tb.chains[c])
  {
    StepsPurge(BaseClean(tb), cs, c);
    if !c.BaseChain? && !DaemonChain(c) {
      NotOwned(c, tb.chains[c]);
    }
  }

  lemma {:induction false} NotOwned(c: ChainId, l: seq<Installed>)
    requires !c.BaseChain? && !DaemonChain(c)
    ensures Foreign(c, l) == l
  {
    if l != [] {
      NotOwned(c, l[..|l| - 1]);
    }
  }

  /** Cleanup is complete for rules: none owned by the daemon is left. */
  lemma CleanupComplete(tb: Table, cs: seq<ChainId>)
    requires Lists(cs, tb)
    ensures NoOwned(Cleaned(tb, cs))
  {
    hide Cleaned;
    forall c, x | c in Cleaned(tb, cs).chains && x in Cleaned(tb, cs).chains[c] ensures !Owned(c, x.rule) {
      CleanedChain(tb, cs, c);
      ForeignMembers(c, tb.chains[c], x);
    }
  }

  // ------------------------------------------------------ survival spelled out

  /** The rule is not the daemon's: in a base chain any but an interface filter, in
      an entry or common chain one without a comment or with a text of another kind,
      in any other chain every rule. */
  predicate Stays(c: ChainId, note: Comment) {
    match c
    case BaseChain(_) => !note.InterfaceFilterNote?
    case EntryChain(_) => OtherText(note)
    case CommonChain(_) => OtherText(note)
    case _ => true
  }

  predicate OtherText(note: Comment) {
    || note == NoComment
    || (note.TextNote? && !(|note.text| >= 7 && note.text[..7] == "policy:") &&
        !(|note.text| >= 12 && note.text[..12] == "common rule:") &&
        !(|note.text| >= 11 && note.text[..11] == "allow_icmp_"))
  }

  /** Those rules of a chain, in order. */
  function Staying(c: ChainId, l: seq<Installed>): seq<Installed> {
    if l == [] then [] else (if Stays(c, l[0].rule.comment) then [l[0]] else []) + Staying(c, l[1..])
  }

  lemma StaysNotOwned(c: ChainId, r: Rule)
    ensures Stays(c, r.comment) <==> !Owned(c, r)
  {
    assert |"policy:"| == 7 && |"common rule:"| == 12 && |"allow_icmp_"| == 11;
  }

  lemma {:induction false} StayingIsForeign(c: ChainId, l: seq<Installed>)
    ensures Staying(c, l) == Foreign(c, l)
  {
    if l == [] {
      ForeignNone(c);
    } else {
      hide Foreign, Owned, Stays;
      StayingIsForeign(c, l[1..]);
      assert l == [l[0]] + l[1..];
      ForeignConcat(c, [l[0]], l[1..]);
      ForeignSingle(c, l[0]);
      StaysNotOwned(c, l[0].rule);
    }
  }

  lemma {:induction false} AllStay(c: ChainId, l: seq<Installed>)
    requires !c.BaseChain? && !c.EntryChain? && !c.CommonChain?
    ensures Staying(c, l) == l
  {
    if l != [] {
      AllStay(c, l[1..]);
      assert l == [l[0]] + l[1..];
    }
  }

  /** The set is the daemon's. */
  predicate OldSet(s: SetId, obj: SetObj) {
    s == PodInterfaces && (obj.comment == "Pod interfaces" || obj.comment == "Pod interfaces NAT")
  }

  /** What a run leaves of a table, without a word on ownership: of each chain just
      the rules that are not the daemon's, in order; all chains but entry and common
      chains of which nothing is left; all sets but the daemon's.  No rule left
      jumps or goes to a chain that has gone. */
  lemma CleanupSpelled(tb: Table, cs: seq<ChainId>)
    requires Lists(cs, tb)
    ensures var z := Cleaned(tb, cs);
            && (forall c :: c in z.chains ==> c in tb.chains && z.chains[c] == Staying(c, tb.chains[c]))
            && (forall c :: c in tb.chains && c !in z.chains ==>
                  (c.EntryChain? || c.CommonChain?) && Staying(c, tb.chains[c]) == [])
            && (forall s :: s in z.sets <==> s in tb.sets && !OldSet(s, tb.sets[s]))
            && (forall s :: s in z.sets ==> z.sets[s] == tb.sets[s])
    ensures forall c, x, e ::
              c in Cleaned(tb, cs).chains && x in Cleaned(tb, cs).chains[c] && e in x.rule.exprs && e.Verdict? &&
              (e.verdict.Jump? || e.verdict.Goto?) && e.verdict.target in tb.chains ==>
                e.verdict.target in Cleaned(tb, cs).chains
  {
    var z := Cleaned(tb, cs);
    CleanupSafe(tb, cs);
    SetsLeft(tb, cs);
    hide Cleaned, Foreign, Staying, Owned, DaemonSet;
    forall c | c in z.chains ensures c in tb.chains && z.chains[c] == Staying(c, tb.chains[c]) {
      CleanedChain(tb, cs, c);
      StayingIsForeign(c, tb.chains[c]);
    }
    forall c | c in tb.chains && c !in z.chains
      ensures (c.EntryChain? || c.CommonChain?) && Staying(c, tb.chains[c]) == []
    {
      StayingIsForeign(c, tb.chains[c]);
    }
    forall c, x, e | c in z.chains && x in z.chains[c] && e in x.rule.exprs && e.Verdict? &&
                     (e.verdict.Jump? || e.verdict.Goto?) && e.verdict.target in tb.chains
      ensures e.verdict.target in z.chains
    {
      TargetStays(tb, z, c, x, e);
    }
  }

  lemma TargetStays(tb: Table, z: Table, c: ChainId, x: Installed, e: Expr)
    requires Spares(tb, z) && c in z.chains && x in z.chains[c] && e in x.rule.exprs && e.Verdict?
    requires (e.verdict.Jump? || e.verdict.Goto?) && e.verdict.target in tb.chains
    ensures e.verdict.target in z.chains
  {
    hide Foreign, DaemonSet;
    var i :| 0 <= i < |z.chains[c]| && z.chains[c][i] == x;
    var k :| 0 <= k < |x.rule.exprs| && x.rule.exprs[k] == e;
    assert RefersTo(z.chains[c][i].rule, e.verdict.target);
    assert Referenced(z, e.verdict.target);
  }

  lemma SetsLeft(tb: Table, cs: seq<ChainId>)
    ensures forall s :: s in Cleaned(tb, cs).sets <==> s in tb.sets && !OldSet(s, tb.sets[s])
  {
    StepsSets(BaseClean(tb), cs);
  }

  lemma {:induction false} StepsSets(tb: Table, cs: seq<ChainId>)
    ensures ChainSteps(tb, cs).sets == tb.sets
  {
    if cs != [] {
      StepsSets(tb, cs[..|cs| - 1]);
    }
  }

  // --------------------------------------------------------- a second run

  /** Without daemon rules the outcome does not depend on the listing. */
  ghost function Settled(tb: Table): Table {
    SetsClean(tb.(chains := map c | c in tb.chains && !Useless(tb, c) :: tb.chains[c]))
  }

  ghost predicate Useless(tb: Table, c: ChainId) {
    c in tb.chains && DaemonChain(c) && tb.chains[c] == [] && !Referenced(tb, c)
  }

  lemma {:induction false} ForeignAll(c: ChainId, l: seq<Installed>)
    requires forall x :: x in l ==> !Owned(c, x.rule)
    ensures Foreign(c, l) == l
  {
    if l != [] {
      ForeignAll(c, l[..|l| - 1]);
    }
  }

  /** Chains already removed were empty, so references stay the same. */
  ghost predicate OnlyUseless(tb: Table, b: Table, cs: seq<ChainId>) {
    && b.sets == tb.sets && b.next == tb.next
    && (forall c :: c in b.chains <==> c in tb.chains && !(c in cs && Useless(tb, c)))
    && (forall c :: c in b.chains ==> b.chains[c] == tb.chains[c])
  }

  lemma SameReferences(tb: Table, b: Table, cs: seq<ChainId>, c: ChainId)
    requires OnlyUseless(tb, b, cs)
    ensures Referenced(b, c) <==> Referenced(tb, c)
  {
    if x, i :| x in tb.chains && 0 <= i < |tb.chains[x]| && RefersTo(tb.chains[x][i].rule, c) {
      assert x in b.chains && b.chains[x] == tb.chains[x];
    }
    if x, i :| x in b.chains && 0 <= i < |b.chains[x]| && RefersTo(b.chains[x][i].rule, c) {
      assert tb.chains[x] == b.chains[x];
    }
  }

  lemma SettleStep(tb: Table, b: Table, cs: seq<ChainId>, c: ChainId)
    requires NoOwned(tb) && OnlyUseless(tb, b, cs)
    ensures OnlyUseless(tb, ChainStep(b, c), cs + [c])
  {
    SameReferences(tb, b, cs, c);
    if c in b.chains && DaemonChain(c) {
      ForeignAll(c, b.chains[c]);
      assert b.chains[c := b.chains[c]] == b.chains;
      assert Purged(b, c) == b;
    }
    hide Purged, Referenced, NoOwned;
    assert forall x :: x in cs + [c] <==> x in cs || x == c;
  }

  lemma {:induction false} StepsSettle(tb: Table, cs: seq<ChainId>)
    requires NoOwned(tb)
    ensures OnlyUseless(tb, ChainSteps(tb, cs), cs)
  {
    hide NoOwned, ChainStep, Useless;
    if cs != [] {
      var n := |cs| - 1;
      StepsSettle(tb, cs[..n]);
      SettleStep(tb, ChainSteps(tb, cs[..n]), cs[..n], cs[n]);
      assert cs[..n] + [cs[n]] == cs;
    }
  }

  lemma BaseCleanIdle(tb: Table)
    requires NoOwned(tb)
    ensures BaseClean(tb) == tb
  {
    forall c | c in tb.chains ensures Foreign(c, tb.chains[c]) == tb.chains[c] {
      ForeignAll(c, tb.chains[c]);
    }
    hide Foreign, Owned;
    assert BaseClean(tb).chains == tb.chains;
  }

  lemma SettledCleaned(tb: Table, cs: seq<ChainId>)
    requires NoOwned(tb) && Lists(cs, tb)
    ensures Cleaned(tb, cs) == Settled(tb)
  {
    hide BaseClean, Useless, ChainSteps, NoOwned;
    BaseCleanIdle(tb);
    StepsSettle(tb, cs);
    assert ChainSteps(tb, cs).chains == (map c | c in tb.chains && !Useless(tb, c) :: tb.chains[c]);
  }

  lemma SettledTwice(tb: Table)
    ensures Settled(Settled(tb)) == Settled(tb)
  {
    var s := Settled(tb);
    forall c ensures Referenced(s, c) <==> Referenced(tb, c) {
      if x, i :| x in tb.chains && 0 <= i < |tb.chains[x]| && RefersTo(tb.chains[x][i].rule, c) {
        assert x in s.chains && s.chains[x] == tb.chains[x];
      }
      if x, i :| x in s.chains && 0 <= i < |s.chains[x]| && RefersTo(s.chains[x][i].rule, c) {
        assert tb.chains[x] == s.chains[x];
      }
    }
    hide Referenced;
    assert Settled(s).chains == s.chains;
    assert Settled(s).sets == s.sets;
  }

  /** One run may keep a chain that a daemon rule still referred to when the chain
      was looked at; the second run settles everything, and from then on runs
      change nothing, whatever the order of the listings. */
  lemma TwoRunsSettle(tb: Table, cs: seq<ChainId>, ds: seq<ChainId>, es: seq<ChainId>)
    requires Lists(cs, tb) && Lists(ds, Cleaned(tb, cs)) && Lists(es, Cleaned(Cleaned(tb, cs), ds))
    ensures Cleaned(Cleaned(tb, cs), ds) == Settled(Cleaned(tb, cs))
    ensures Cleaned(Cleaned(Cleaned(tb, cs), ds), es) == Cleaned(Cleaned(tb, cs), ds)
  {
    hide Cleaned, Settled, NoOwned, Lists;
    CleanupComplete(tb, cs);
    var one := Cleaned(tb, cs);
    SettledCleaned(one, ds);
    CleanupComplete(one, ds);
    SettledCleaned(Cleaned(one, ds), es);
    SettledTwice(one);
  }

  // ------------------------------------------------------ when one run settles

  /** A rule that is not the daemon's refers to the chain. */
  ghost predicate ForeignRef(tb: Table, c: ChainId) {
    exists x, i :: x in tb.chains && 0 <= i < |tb.chains[x]| && !Owned(x, tb.chains[x][i].rule) &&
      RefersTo(tb.chains[x][i].rule, c)
  }

  /** A rule of the daemon in chain x refers to the chain. */
  ghost predicate OwnedRef(tb: Table, x: ChainId, c: ChainId) {
    && x in tb.chains
    && exists i :: 0 <= i < |tb.chains[x]| && Owned(x, tb.chains[x][i].rule) && RefersTo(tb.chains[x][i].rule, c)
  }

  /** A daemon chain that nothing but daemon rules keeps is listed before the
      daemon chain that refers to it. */
  ghost predicate Overlooked(tb: Table, cs: seq<ChainId>)
    requires Lists(cs, tb)
  {
    exists i, j :: 0 <= i < j < |cs| && KeptBy(tb, cs[i], cs[j])
  }

  ghost predicate KeptBy(tb: Table, c: ChainId, x: ChainId)
  {
    && DaemonChain(c) && DaemonChain(x) && c in tb.chains && Foreign(c, tb.chains[c]) == []
    && !ForeignRef(tb, c) && OwnedRef(tb, x, c)
  }

  /** The table before the daemon chain at position i is looked at. */
  ghost function Before(tb: Table, cs: seq<ChainId>, i: nat): Table
    requires i <= |cs|
  {
    ChainSteps(BaseClean(tb), cs[..i])
  }

  /** What is left of chain x by then. */
  ghost function Left(tb: Table, cs: seq<ChainId>, i: nat, x: ChainId): seq<Installed>
    requires i <= |cs| && x in tb.chains
  {
    if x.BaseChain? || (DaemonChain(x) && x in cs[..i]) then Foreign(x, tb.chains[x]) else tb.chains[x]
  }

  lemma BeforeContent(tb: Table, cs: seq<ChainId>, i: nat, x: ChainId)
    requires i <= |cs| && x in Before(tb, cs, i).chains
    ensures x in tb.chains && Before(tb, cs, i).chains[x] == Left(tb, cs, i, x)
  {
    hide Foreign, ChainSteps;
    StepsPurge(BaseClean(tb), cs[..i], x);
  }

  lemma LeftMembers(tb: Table, cs: seq<ChainId>, i: nat, x: ChainId, r: Installed)
    requires i <= |cs| && x in tb.chains
    ensures r in Left(tb, cs, i, x) ==> r in tb.chains[x]
    ensures r in tb.chains[x] && !Owned(x, r.rule) ==> r in Left(tb, cs, i, x)
    ensures r in Left(tb, cs, i, x) && Owned(x, r.rule) ==> DaemonChain(x) && x !in cs[..i]
  {
    hide Foreign;
    ForeignMembers(x, tb.chains[x], r);
  }

  /** A chain goes only when its turn comes and it is left empty. */
  lemma {:induction false} BeforePresent(tb: Table, cs: seq<ChainId>, i: nat, x: ChainId)
    requires i <= |cs| && x in tb.chains && (x !in cs[..i] || !DaemonChain(x) || Foreign(x, tb.chains[x]) != [])
    ensures x in Before(tb, cs, i).chains
  {
    hide Foreign, Referenced;
    if i > 0 {
      assert cs[..i][..i - 1] == cs[..i - 1] && forall y :: y in cs[..i] <==> y in cs[..i - 1] || y == cs[i - 1];
      BeforePresent(tb, cs, i - 1, x);
      BeforeContent(tb, cs, i - 1, x);
      ForeignTwice(x, tb.chains[x]);
    }
  }

  /** The table the two checks of the chain at position i see. */
  ghost function Looked(tb: Table, cs: seq<ChainId>, i: nat): Table
    requires i < |cs| && cs[i] in Before(tb, cs, i).chains
  {
    Purged(Before(tb, cs, i), cs[i])
  }

  lemma LookedContent(tb: Table, cs: seq<ChainId>, i: nat, x: ChainId)
    requires Lists(cs, tb) && i < |cs| && DaemonChain(cs[i]) && cs[i] in Before(tb, cs, i).chains
    requires x in Looked(tb, cs, i).chains
    ensures x in tb.chains && Looked(tb, cs, i).chains[x] == Left(tb, cs, i + 1, x)
  {
    hide Foreign, ChainSteps;
    assert forall y :: y in cs[..i + 1] <==> y in cs[..i] || y == cs[i];
    BeforeContent(tb, cs, i, x);
  }

  /** At that moment rules of others and daemon rules listed later count. */
  lemma LookedReferenced(tb: Table, cs: seq<ChainId>, i: nat)
    requires Lists(cs, tb) && i < |cs| && DaemonChain(cs[i]) && cs[i] in Before(tb, cs, i).chains
    ensures Referenced(Looked(tb, cs, i), cs[i]) <==>
            ForeignRef(tb, cs[i]) || exists j :: i < j < |cs| && DaemonChain(cs[j]) && OwnedRef(tb, cs[j], cs[i])
  {
    hide RefersTo, Owned, Looked;
    var p, c := Looked(tb, cs, i), cs[i];
    if Referenced(p, c) {
      var x, k :| x in p.chains && 0 <= k < |p.chains[x]| && RefersTo(p.chains[x][k].rule, c);
      LookedFrom(tb, cs, i, x, k);
    }
    if ForeignRef(tb, c) {
      var x, k :| x in tb.chains && 0 <= k < |tb.chains[x]| && !Owned(x, tb.chains[x][k].rule) &&
                  RefersTo(tb.chains[x][k].rule, c);
      LookedAt(tb, cs, i, x, k);
    }
    if j :| i < j < |cs| && DaemonChain(cs[j]) && OwnedRef(tb, cs[j], c) {
      var k :| 0 <= k < |tb.chains[cs[j]]| && Owned(cs[j], tb.chains[cs[j]][k].rule) &&
               RefersTo(tb.chains[cs[j]][k].rule, c);
      assert cs[j] !in cs[..i + 1];
      LookedAt(tb, cs, i, cs[j], k);
    }
  }

  lemma LookedFrom(tb: Table, cs: seq<ChainId>, i: nat, x: ChainId, k: nat)
    requires Lists(cs, tb) && i < |cs| && DaemonChain(cs[i]) && cs[i] in Before(tb, cs, i).chains
    requires x in Looked(tb, cs, i).chains && k < |Looked(tb, cs, i).chains[x]|
    requires RefersTo(Looked(tb, cs, i).chains[x][k].rule, cs[i])
    ensures ForeignRef(tb, cs[i]) || exists j :: i < j < |cs| && DaemonChain(cs[j]) && OwnedRef(tb, cs[j], cs[i])
  {
    hide RefersTo, Owned, Looked, Left;
    var r := Looked(tb, cs, i).chains[x][k];
    LookedContent(tb, cs, i, x);
    LeftMembers(tb, cs, i + 1, x, r);
    assert r in tb.chains[x];
    var n :| 0 <= n < |tb.chains[x]| && tb.chains[x][n] == r;
    if Owned(x, r.rule) {
      var j :| 0 <= j < |cs| && cs[j] == x;
      assert j > i;
      assert OwnedRef(tb, cs[j], cs[i]);
    }
  }

  lemma LookedAt(tb: Table, cs: seq<ChainId>, i: nat, x: ChainId, k: nat)
    requires Lists(cs, tb) && i < |cs| && DaemonChain(cs[i]) && cs[i] in Before(tb, cs, i).chains
    requires x in tb.chains && k < |tb.chains[x]| && RefersTo(tb.chains[x][k].rule, cs[i])
    requires !Owned(x, tb.chains[x][k].rule) || (DaemonChain(x) && x !in cs[..i + 1])
    ensures Referenced(Looked(tb, cs, i), cs[i])
  {
    hide RefersTo, Owned, Foreign;
    var r := tb.chains[x][k];
    assert forall y :: y in cs[..i + 1] <==> y in cs[..i] || y == cs[i];
    ForeignMembers(x, tb.chains[x], r);
    BeforePresent(tb, cs, i, x);
    LookedContent(tb, cs, i, x);
    LeftMembers(tb, cs, i + 1, x, r);
    assert r in Left(tb, cs, i + 1, x) by {
      if Owned(x, r.rule) {
        assert !x.BaseChain?;
      }
    }
    var l := Looked(tb, cs, i).chains[x];
    var n :| 0 <= n < |l| && l[n] == r;
  }

  /** Once looked at, a chain stays as it is. */
  lemma {:induction false} LaterSteps(tb: Table, cs: seq<ChainId>, i: nat, n: nat)
    requires Lists(cs, tb) && i < n <= |cs|
    ensures cs[i] in Before(tb, cs, n).chains <==> cs[i] in Before(tb, cs, i + 1).chains
  {
    hide Foreign, Referenced;
    if n > i + 1 {
      LaterSteps(tb, cs, i, n - 1);
      assert cs[..n][..n - 1] == cs[..n - 1];
    }
  }

  lemma ChainStays(tb: Table, cs: seq<ChainId>, i: nat)
    requires Lists(cs, tb) && i < |cs| && DaemonChain(cs[i])
    ensures cs[i] in tb.chains
    ensures cs[i] in Cleaned(tb, cs).chains <==>
            || Foreign(cs[i], tb.chains[cs[i]]) != [] || ForeignRef(tb, cs[i])
            || exists j :: i < j < |cs| && DaemonChain(cs[j]) && OwnedRef(tb, cs[j], cs[i])
  {
    hide Foreign, Referenced, ForeignRef, OwnedRef;
    var c := cs[i];
    assert c in cs && c !in cs[..i];
    BeforePresent(tb, cs, i, c);
    BeforeContent(tb, cs, i, c);
    LookedReferenced(tb, cs, i);
    assert cs[..i + 1][..i] == cs[..i] && cs[..|cs|] == cs;
    assert Before(tb, cs, i + 1) == ChainStep(Before(tb, cs, i), c);
    LaterSteps(tb, cs, i, |cs|);
  }

  lemma CleanedReferenced(tb: Table, cs: seq<ChainId>, c: ChainId)
    requires Lists(cs, tb)
    ensures Referenced(Cleaned(tb, cs), c) <==> ForeignRef(tb, c)
  {
    hide RefersTo, Owned, Cleaned, Foreign;
    var z := Cleaned(tb, cs);
    if x, i :| x in z.chains && 0 <= i < |z.chains[x]| && RefersTo(z.chains[x][i].rule, c) {
      CleanedChain(tb, cs, x);
      ForeignMembers(x, tb.chains[x], z.chains[x][i]);
      assert z.chains[x][i] in tb.chains[x];
      var n :| 0 <= n < |tb.chains[x]| && tb.chains[x][n] == z.chains[x][i];
    }
    if x, i :| x in tb.chains && 0 <= i < |tb.chains[x]| && !Owned(x, tb.chains[x][i].rule) &&
               RefersTo(tb.chains[x][i].rule, c) {
      var r := tb.chains[x][i];
      ForeignMembers(x, tb.chains[x], r);
      CleanedPresent(tb, cs, x);
      CleanedChain(tb, cs, x);
      var n :| 0 <= n < |z.chains[x]| && z.chains[x][n] == r;
    }
  }

  lemma CleanedPresent(tb: Table, cs: seq<ChainId>, x: ChainId)
    requires x in tb.chains && Foreign(x, tb.chains[x]) != []
    ensures x in Cleaned(tb, cs).chains
  {
    hide Foreign, ChainSteps;
    BeforePresent(tb, cs, |cs|, x);
    assert cs[..|cs|] == cs;
  }

  lemma SettledIff(z: Table)
    requires SetsClean(z) == z
    ensures Settled(z) == z <==> forall c :: !Useless(z, c)
  {
    hide Useless, DaemonSet;
    var chains := map c | c in z.chains && !Useless(z, c) :: z.chains[c];
    if forall c :: !Useless(z, c) {
      assert chains == z.chains;
    } else {
      var c :| Useless(z, c);
      UselessIn(z, c);
      assert c !in Settled(z).chains;
    }
  }

  lemma UselessIn(z: Table, c: ChainId)
    requires Useless(z, c)
    ensures c in z.chains
  {
  }

  lemma CleanedSets(tb: Table, cs: seq<ChainId>)
    ensures SetsClean(Cleaned(tb, cs)) == Cleaned(tb, cs)
  {
    hide DaemonSet;
    var z := Cleaned(tb, cs);
    assert SetsClean(z).sets == z.sets;
  }

  /** One run settles a table for good, whatever its listing, if and only if no
      daemon chain is listed before the daemon chain that alone keeps it. */
  lemma OneRunSettles(tb: Table, cs: seq<ChainId>)
    requires Lists(cs, tb)
    ensures Settled(Cleaned(tb, cs)) == Cleaned(tb, cs) <==> !Overlooked(tb, cs)
  {
    hide Cleaned, Settled, Foreign, ForeignRef, OwnedRef, Referenced, SetsClean, KeptBy;
    var z := Cleaned(tb, cs);
    CleanedSets(tb, cs);
    SettledIff(z);
    if c :| Useless(z, c) {
      var i := KeptAt(tb, cs, c);
      var j :| i < j < |cs| && KeptBy(tb, c, cs[j]);
      assert KeptBy(tb, cs[i], cs[j]);
    }
    if i, j :| 0 <= i < j < |cs| && KeptBy(tb, cs[i], cs[j]) {
      KeptUseless(tb, cs, i, j);
    }
  }

  lemma KeptAt(tb: Table, cs: seq<ChainId>, c: ChainId) returns (i: nat)
    requires Lists(cs, tb) && Useless(Cleaned(tb, cs), c)
    ensures i < |cs| && cs[i] == c && exists j :: i < j < |cs| && KeptBy(tb, c, cs[j])
  {
    hide Cleaned, Foreign, ForeignRef, OwnedRef, Referenced;
    CleanedChain(tb, cs, c);
    CleanedReferenced(tb, cs, c);
    i :| 0 <= i < |cs| && cs[i] == c;
    ChainStays(tb, cs, i);
    var j :| i < j < |cs| && DaemonChain(cs[j]) && OwnedRef(tb, cs[j], cs[i]);
    assert KeptBy(tb, c, cs[j]);
  }

  lemma KeptUseless(tb: Table, cs: seq<ChainId>, i: nat, j: nat)
    requires Lists(cs, tb) && i < j < |cs| && KeptBy(tb, cs[i], cs[j])
    ensures Useless(Cleaned(tb, cs), cs[i])
  {
    hide Cleaned, Foreign, ForeignRef, OwnedRef, Referenced;
    ChainStays(tb, cs, i);
    CleanedChain(tb, cs, cs[i]);
    CleanedReferenced(tb, cs, cs[i]);
  }

  /** A table with two daemon chains, the first of which jumps to the second. */
  const ENTRY: ChainId := EntryChain(Ingress)
  const COMMON: ChainId := CommonChain(Ingress)
  const JUMPING: Rule := Rule(TableId(Inet, LegacyFilter), ENTRY, CommonJumpNote(Ingress), [Verdict(Jump(COMMON))])
  const LEFTOVER: Table := Table(map[ENTRY := [Installed(0, JUMPING)], COMMON := []], map[], 1)

  const HALF: Table := Table(map[COMMON := []], map[], 1)

  lemma LeftoverBase()
    ensures BaseClean(LEFTOVER) == LEFTOVER
  {
    assert BaseClean(LEFTOVER).chains == LEFTOVER.chains;
  }

  lemma CommonStep()
    ensures ChainStep(LEFTOVER, COMMON) == LEFTOVER
  {
    ForeignSingle(COMMON, Installed(0, JUMPING));
    assert Purged(LEFTOVER, COMMON).chains == LEFTOVER.chains;
    assert JUMPING.exprs[0] == Verdict(Jump(COMMON));
    assert RefersTo(LEFTOVER.chains[ENTRY][0].rule, COMMON);
    assert Referenced(LEFTOVER, COMMON);
  }

  lemma EntryStep()
    ensures ChainStep(LEFTOVER, ENTRY) == HALF
  {
    ForeignSingle(ENTRY, Installed(0, JUMPING));
    var p := Purged(LEFTOVER, ENTRY);
    assert p.chains == map[ENTRY := [], COMMON := []];
    assert !Referenced(p, ENTRY);
    assert p.chains - {ENTRY} == map[COMMON := []];
  }

  lemma CommonStepLast()
    ensures COMMON !in ChainStep(HALF, COMMON).chains
  {
    ForeignSingle(COMMON, Installed(0, JUMPING));
    assert !Referenced(Purged(HALF, COMMON), COMMON);
  }

  lemma TwoSteps(tb: Table, a: ChainId, b: ChainId)
    ensures ChainSteps(tb, [a, b]) == ChainStep(ChainStep(tb, a), b)
  {
    hide ChainStep;
    assert [a, b][..1] == [a] && [a][..0] == [];
    assert ChainSteps(tb, [a]) == ChainStep(tb, a);
  }

  /** Listed first, the second chain survives the run; listed last, it goes. */
  lemma OneRunDependsOnOrder()
    ensures Lists([COMMON, ENTRY], LEFTOVER) && Lists([ENTRY, COMMON], LEFTOVER)
    ensures COMMON in Cleaned(LEFTOVER, [COMMON, ENTRY]).chains && COMMON !in Cleaned(LEFTOVER, [ENTRY, COMMON]).chains
  {
    hide ChainStep, ChainSteps, BaseClean;
    LeftoverBase();
    TwoSteps(LEFTOVER, COMMON, ENTRY);
    TwoSteps(LEFTOVER, ENTRY, COMMON);
    CommonStep();
    EntryStep();
    CommonStepLast();
  }

  // ------------------------------------------------------------ the procedure

  /** Queues the deletion of the daemon's rules in one chain.  The batch may hold
      other deletions already: `m` are the chains once it is applied. */
  method DeleteOwnedRules(conn: Conn, t: TableId, c: ChainId, ghost tb: Table) returns (deleted: bool)
    requires t in conn.committed && c in conn.committed[t].chains && WellFormed(conn.committed)
    requires c in tb.chains && tb.chains[c] == conn.committed[t].chains[c]
    requires ApplyAll(conn.committed, conn.pending) == conn.committed[t := tb]
    modifies conn`pending
    ensures ApplyAll(conn.committed, conn.pending) == conn.committed[t := Purged(tb, c)]
    ensures !deleted ==> conn.pending == old(conn.pending)
  {
    deleted := false;
    assert ChainOk(t, c, conn.committed[t].chains[c], conn.committed[t].next);
    hide Foreign, ApplyAll, Minus, WellFormed, ChainOk, Owned;
    var l := conn.committed[t].chains[c];
    ghost var now := l;
    NoneForeign(c, l);
    assert tb.(chains := tb.chains[c := l]) == tb;
    for i := 0 to |l|
      invariant now == Foreign(c, l[..i]) + l[i..]
      invariant ApplyAll(conn.committed, conn.pending) == conn.committed[t := tb.(chains := tb.chains[c := now])]
      invariant !deleted ==> conn.pending == old(conn.pending)
    {
      if Owned(c, l[i].rule) {
        QueueDel(conn.committed, conn.pending, t, tb, tb.chains, now, c, l[i].handle);
        OwnedAt(t, c, l, conn.committed[t].next, i);
        conn.Queue(DelRule(t, c, l[i].handle));
        deleted := true;
        now := Minus(now, {l[i].handle});
      } else {
        ForeignAt(c, l, i);
      }
    }
    assert l[..|l|] == l && now == Foreign(c, l);
  }

  lemma NoneForeign(c: ChainId, l: seq<Installed>)
    ensures Foreign(c, l[..0]) + l[0..] == l
  {
  }

  lemma ForeignAt(c: ChainId, l: seq<Installed>, i: nat)
    requires i < |l| && !Owned(c, l[i].rule)
    ensures Foreign(c, l[..i]) + l[i..] == Foreign(c, l[..i + 1]) + l[i + 1..]
  {
    hide Owned;
    assert l[..i + 1][..i] == l[..i] && l[i..] == [l[i]] + l[i + 1..];
  }

  lemma OwnedAt(t: TableId, c: ChainId, l: seq<Installed>, next: nat, i: nat)
    requires ChainOk(t, c, l, next) && i < |l| && Owned(c, l[i].rule)
    ensures Minus(Foreign(c, l[..i]) + l[i..], {l[i].handle}) == Foreign(c, l[..i + 1]) + l[i + 1..]
  {
    hide Minus, Owned;
    var a := Foreign(c, l[..i]);
    assert l[..i + 1][..i] == l[..i] && l[i..] == [l[i]] + l[i + 1..];
    assert Foreign(c, l[..i + 1]) == a;
    hide Foreign;
    forall j | 0 <= j < |a| ensures a[j].handle != l[i].handle {
      ForeignMembers(c, l[..i], a[j]);
      var x :| 0 <= x < i && l[..i][x] == a[j];
    }
    MinusMiddle(a, l[i], l[i + 1..]);
  }

  /** The committed table is behind the batch only by chains that are empty. */
  ghost predicate Ahead(com: Table, cur: Table) {
    && com.sets == cur.sets && com.next == cur.next
    && (forall c :: c in cur.chains ==> c in com.chains && com.chains[c] == cur.chains[c])
    && (forall c :: c in com.chains && c !in cur.chains ==> com.chains[c] == [])
  }

  lemma AheadReferenced(com: Table, cur: Table, c: ChainId)
    requires Ahead(com, cur)
    ensures Referenced(com, c) <==> Referenced(cur, c)
  {
    if x, i :| x in com.chains && 0 <= i < |com.chains[x]| && RefersTo(com.chains[x][i].rule, c) {
      assert x in cur.chains && cur.chains[x] == com.chains[x];
    }
    if x, i :| x in cur.chains && 0 <= i < |cur.chains[x]| && RefersTo(cur.chains[x][i].rule, c) {
      assert com.chains[x] == cur.chains[x];
    }
  }

  /** While table t of rs is being cleaned: com is committed, and the batch leads
      to the table cur. */
  ghost predicate Busy(com: Ruleset, pending: seq<Op>, rs: Ruleset, t: TableId, cur: Table) {
    && t in rs && SparedIn(rs, com, t)
    && ApplyAll(com, pending) == com[t := cur]
    && Ahead(com[t], cur) && TableOk(t, cur) && Spares(rs[t], cur)
  }

  lemma BusyParts(com: Ruleset, pending: seq<Op>, rs: Ruleset, t: TableId, cur: Table)
    requires Busy(com, pending, rs, t, cur)
    ensures SparedIn(rs, com, t) && t in com && WellFormed(com) && ApplyAll(com, pending) == com[t := cur]
    ensures cur.sets == com[t].sets && forall c :: c in cur.chains ==>
              c in com[t].chains && cur.chains[c] == com[t].chains[c]
  {
    hide Spares, WellFormed, ApplyAll, TableOk;
  }

  lemma BusyTable(com: Ruleset, pending: seq<Op>, rs: Ruleset, t: TableId, cur: Table)
    requires Busy(com, pending, rs, t, cur)
    ensures TableOk(t, cur)
  {
    hide Spares, WellFormed, ApplyAll, TableOk;
  }

  /** The batch now leads to another table: either it is unchanged, or it will be
      flushed. */
  lemma BusyNext(com: Ruleset, pending: seq<Op>, rs: Ruleset, t: TableId, cur: Table, pending': seq<Op>, next: Table)
    requires Busy(com, pending, rs, t, cur) && ApplyAll(com, pending') == com[t := next] && TableOk(t, next)
    requires Spares(cur, next)
    ensures pending' == pending ==> Busy(com, pending, rs, t, next)
    ensures Busy(com[t := next], [], rs, t, next) && SparedIn(rs, com[t := next], t)
    ensures next.sets == cur.sets && Ahead(com[t], next) ==> Busy(com, pending', rs, t, next)
  {
    hide Spares, WellFormed, TableOk, ApplyAll;
    SparesTrans(rs[t], cur, next);
    SetOk(com, t, next);
    ApplyNone(com[t := next]);
    if pending' == pending {
      assert com[t := cur][t] == com[t := next][t];
    }
  }

  lemma SetOk(rs: Ruleset, t: TableId, tb: Table)
    requires WellFormed(rs) && TableOk(t, tb)
    ensures WellFormed(rs[t := tb]) && rs[t := tb][t := tb] == rs[t := tb]
  {
    hide TableOk;
  }

  lemma PurgedOk(t: TableId, tb: Table, c: ChainId)
    requires TableOk(t, tb) && c in tb.chains
    ensures TableOk(t, Purged(tb, c))
  {
    ForeignOk(t, c, tb.chains[c], tb.next);
  }

  lemma {:induction false} ForeignOk(t: TableId, c: ChainId, l: seq<Installed>, next: nat)
    requires ChainOk(t, c, l, next)
    ensures ChainOk(t, c, Foreign(c, l), next)
  {
    if l != [] {
      var n := |l| - 1;
      assert forall i :: 0 <= i < n ==> l[..n][i] == l[i];
      ForeignOk(t, c, l[..n], next);
      var m := Foreign(c, l[..n]);
      forall i | 0 <= i < |m| ensures m[i].handle != l[n].handle {
        ForeignMembers(c, l[..n], m[i]);
        var j :| 0 <= j < n && l[..n][j] == m[i];
      }
      ChainSnocOk(t, c, m, l[n], next);
    }
  }

  /** The rules of one chain go, and are flushed together with whatever the batch
      holds; nothing is flushed if the daemon owns none of them. */
  method PurgeChain(conn: Conn, ghost rs: Ruleset, t: TableId, c: ChainId, ghost cur: Table) returns (ok: bool)
    requires Busy(conn.committed, conn.pending, rs, t, cur) && c in cur.chains
    modifies conn
    ensures conn.Failed(old(conn.failures), ok)
    ensures ok ==> Busy(conn.committed, conn.pending, rs, t, Purged(cur, c))
    ensures !ok ==> SparedIn(rs, conn.committed, t) && conn.pending == []
  {
    hide Busy, SparedIn, WellFormed, ApplyAll, TableOk, Spares, Purged;
    ok := true;
    BusyParts(conn.committed, conn.pending, rs, t, cur);
    BusyTable(conn.committed, conn.pending, rs, t, cur);
    PurgedOk(t, cur, c);
    PurgedSpares(cur, c);
    var deleted := DeleteOwnedRules(conn, t, c, cur);
    BusyNext(old(conn.committed), old(conn.pending), rs, t, cur, conn.pending, Purged(cur, c));
    if deleted {
      ok := conn.Flush();
    }
  }

  /** The base chains among the first i of the listing are clean. */
  ghost predicate BaseDone(tb: Table, cur: Table, cs: seq<ChainId>, i: nat)
    requires i <= |cs|
  {
    && cur.sets == tb.sets && cur.next == tb.next && cur.chains.Keys == tb.chains.Keys
    && forall c :: c in cur.chains ==>
         cur.chains[c] == if c in cs[..i] && c.BaseChain? then Foreign(c, tb.chains[c]) else tb.chains[c]
  }

  lemma BaseNone(tb: Table, cs: seq<ChainId>)
    ensures BaseDone(tb, tb, cs, 0)
  {
  }

  lemma BaseNext(tb: Table, cur: Table, cs: seq<ChainId>, i: nat)
    requires i < |cs| && BaseDone(tb, cur, cs, i) && Lists(cs, tb)
    ensures cs[i] in cur.chains
    ensures BaseDone(tb, if cs[i].BaseChain? then Purged(cur, cs[i]) else cur, cs, i + 1)
  {
    hide Foreign;
    var c := cs[i];
    assert c in cs && c !in cs[..i];
    assert cs[..i + 1] == cs[..i] + [c];
    forall x ensures x in cs[..i + 1] <==> x in cs[..i] || x == c {
    }
  }

  lemma BaseAll(tb: Table, cur: Table, cs: seq<ChainId>)
    requires BaseDone(tb, cur, cs, |cs|) && Lists(cs, tb)
    ensures cur == BaseClean(tb)
  {
    hide Foreign;
    assert cs[..|cs|] == cs;
    var done := BaseClean(tb);
    forall c | c in cur.chains ensures cur.chains[c] == done.chains[c] {
      assert c in cs;
    }
    assert cur.chains == done.chains;
  }

  /** The base chains of a table, each with its own flush. */
  method CleanBaseChains(conn: Conn, ghost rs: Ruleset, t: TableId, cs: seq<ChainId>) returns (ok: bool)
    requires t in rs && conn.committed == rs && conn.pending == [] && WellFormed(rs) && Lists(cs, rs[t])
    modifies conn
    ensures conn.Failed(old(conn.failures), ok)
    ensures ok ==> Busy(conn.committed, conn.pending, rs, t, BaseClean(rs[t]))
    ensures !ok ==> SparedIn(rs, conn.committed, t) && conn.pending == []
  {
    ghost var cur := rs[t];
    hide Busy, BaseDone, BaseClean, Lists, Purged, WellFormed, SparedIn;
    BusyAtFirst(rs, t);
    BaseNone(rs[t], cs);
    for i := 0 to |cs|
      invariant conn.failures == old(conn.failures) && Busy(conn.committed, conn.pending, rs, t, cur)
      invariant BaseDone(rs[t], cur, cs, i)
    {
      BaseNext(rs[t], cur, cs, i);
      if cs[i].BaseChain? {
        ok := PurgeChain(conn, rs, t, cs[i], cur);
        if !ok {
          return;
        }
        cur := Purged(cur, cs[i]);
      }
    }
    BaseAll(rs[t], cur, cs);
    ok := true;
  }

  /** At most table t differs, and only by objects the daemon owned. */
  ghost predicate SparedIn(a: Ruleset, b: Ruleset, t: TableId) {
    && a.Keys == b.Keys && WellFormed(b)
    && (forall x :: x in a && x != t ==> a[x] == b[x])
    && (t in a ==> Spares(a[t], b[t]))
  }

  lemma BusyAtFirst(rs: Ruleset, t: TableId)
    requires t in rs && WellFormed(rs)
    ensures Busy(rs, [], rs, t, rs[t])
  {
    hide Spares;
    assert rs[t := rs[t]] == rs;
    SparesItself(rs[t]);
  }

  /** A daemon chain that is left empty and unreferenced is queued for deletion;
      both checks read the committed ruleset. */
  method CleanDaemonChain(conn: Conn, ghost rs: Ruleset, t: TableId, c: ChainId, ghost cur: Table) returns (ok: bool)
    requires Busy(conn.committed, conn.pending, rs, t, cur) && c in cur.chains && DaemonChain(c)
    modifies conn
    ensures conn.Failed(old(conn.failures), ok)
    ensures ok ==> Busy(conn.committed, conn.pending, rs, t, ChainStep(cur, c))
    ensures !ok ==> SparedIn(rs, conn.committed, t) && conn.pending == []
  {
    hide Busy, Referenced, SparedIn;
    ok := PurgeChain(conn, rs, t, c, cur);
    if !ok {
      return;
    }
    ghost var p := Purged(cur, c);
    BusyReads(conn.committed, conn.pending, rs, t, p, c);
    var referenced := LegacyChainReferenced(conn.committed[t], c);
    var remaining := |conn.committed[t].chains[c]| > 0;
    if !referenced && !remaining {
      BusyDelChain(conn.committed, conn.pending, rs, t, p, c);
      conn.Queue(DelChain(t, c));
    }
  }

  /** What the checks read is what the batch leads to. */
  lemma BusyReads(com: Ruleset, pending: seq<Op>, rs: Ruleset, t: TableId, cur: Table, c: ChainId)
    requires Busy(com, pending, rs, t, cur) && c in cur.chains
    ensures t in com && c in com[t].chains && com[t].chains[c] == cur.chains[c]
    ensures (Referenced(com[t], c) <==> Referenced(cur, c))
  {
    hide Spares, WellFormed, TableOk, Referenced;
    AheadReferenced(com[t], cur, c);
  }

  lemma BusyDelChain(com: Ruleset, pending: seq<Op>, rs: Ruleset, t: TableId, p: Table, c: ChainId)
    requires Busy(com, pending, rs, t, p) && c in p.chains && p.chains[c] == [] && DaemonChain(c) && !Referenced(p, c)
    ensures Busy(com, pending + [DelChain(t, c)], rs, t, p.(chains := p.chains - {c}))
  {
    var p' := p.(chains := p.chains - {c});
    hide Spares, WellFormed, TableOk, Referenced, ApplyAll;
    QueueDelChain(com, pending, t, p, c);
    DelSpares(p, c);
    BusyNext(com, pending, rs, t, p, pending + [DelChain(t, c)], p');
  }

  lemma DelSpares(p: Table, c: ChainId)
    requires c in p.chains && p.chains[c] == [] && DaemonChain(c) && !Referenced(p, c)
    ensures Spares(p, p.(chains := p.chains - {c}))
  {
    hide RefersTo;
    var p' := p.(chains := p.chains - {c});
    if Referenced(p', c) {
      FewerReferences(p, p', c);
    }
  }

  lemma QueueDelChain(rs: Ruleset, pending: seq<Op>, t: TableId, p: Table, c: ChainId)
    requires t in rs && ApplyAll(rs, pending) == rs[t := p] && TableOk(t, p)
    ensures var p' := p.(chains := p.chains - {c});
            ApplyAll(rs, pending + [DelChain(t, c)]) == rs[t := p'] && TableOk(t, p')
  {
    ApplySnoc(rs, pending, DelChain(t, c));
  }

  method CleanDaemonChains(conn: Conn, ghost rs: Ruleset, t: TableId, cs: seq<ChainId>) returns (ok: bool)
    requires t in rs && Lists(cs, rs[t]) && Busy(conn.committed, conn.pending, rs, t, BaseClean(rs[t]))
    modifies conn
    ensures conn.Failed(old(conn.failures), ok)
    ensures ok ==> Busy(conn.committed, conn.pending, rs, t, ChainSteps(BaseClean(rs[t]), cs))
    ensures !ok ==> SparedIn(rs, conn.committed, t) && conn.pending == []
  {
    ghost var b := BaseClean(rs[t]);
    assert b.chains.Keys == rs[t].chains.Keys;
    hide Busy, BaseClean, ChainStep, SparedIn, ChainSteps, DaemonChain;
    NoSteps(b);
    for i := 0 to |cs|
      invariant conn.failures == old(conn.failures) && Busy(conn.committed, conn.pending, rs, t, ChainSteps(b, cs[..i]))
    {
      StepsSnoc(b, cs, i);
      if DaemonChain(cs[i]) {
        assert cs[i] in cs && cs[i] !in cs[..i];
        StillThere(b, cs[..i], cs[i]);
        ok := CleanDaemonChain(conn, rs, t, cs[i], ChainSteps(b, cs[..i]));
        if !ok {
          return;
        }
      } else {
        NotDaemon(ChainSteps(b, cs[..i]), cs[i]);
      }
    }
    assert cs[..|cs|] == cs;
    ok := true;
  }

  lemma NoSteps(tb: Table)
    ensures ChainSteps(tb, []) == tb
  {
  }

  lemma StepsSnoc(tb: Table, cs: seq<ChainId>, i: nat)
    requires i < |cs|
    ensures ChainSteps(tb, cs[..i + 1]) == ChainStep(ChainSteps(tb, cs[..i]), cs[i])
  {
    assert cs[..i + 1][..i] == cs[..i];
  }

  lemma NotDaemon(tb: Table, c: ChainId)
    requires !DaemonChain(c)
    ensures ChainStep(tb, c) == tb
  {
  }

  lemma {:induction false} StillThere(tb: Table, cs: seq<ChainId>, c: ChainId)
    requires c in tb.chains && c !in cs
    ensures c in ChainSteps(tb, cs).chains
  {
    if cs != [] {
      StillThere(tb, cs[..|cs| - 1], c);
    }
  }

  /** The daemon's interface sets are queued for deletion. */
  method DeleteOwnedSets(conn: Conn, t: TableId, ghost cur: Table)
    requires t in conn.committed && cur.sets == conn.committed[t].sets
    requires ApplyAll(conn.committed, conn.pending) == conn.committed[t := cur]
    modifies conn`pending
    ensures ApplyAll(conn.committed, conn.pending) == conn.committed[t := SetsClean(cur)]
  {
    hide ApplyAll, DaemonSet;
    var ss := Enumerate(conn.committed[t].sets.Keys);
    ghost var m := cur.sets;
    assert cur.(sets := m) == cur;
    for i := 0 to |ss|
      invariant m.Keys == set s | s in cur.sets && (s in ss[..i] ==> !DaemonSet(s, cur.sets[s]))
      invariant forall x :: x in m ==> m[x] == cur.sets[x]
      invariant ApplyAll(conn.committed, conn.pending) == conn.committed[t := cur.(sets := m)]
    {
      assert ss[i] in ss && ss[i] !in ss[..i] && forall x :: x in ss[..i + 1] <==> x in ss[..i] || x == ss[i];
      if DaemonSet(ss[i], conn.committed[t].sets[ss[i]]) {
        QueueDelSet(conn.committed, conn.pending, t, cur, m, ss[i]);
        conn.Queue(DelSet(t, ss[i]));
        m := m - {ss[i]};
      }
    }
    assert ss[..|ss|] == ss;
    assert m == SetsClean(cur).sets;
  }

  /** One legacy table. */
  method CleanupLegacyTable(conn: Conn, t: TableId) returns (ok: bool, ghost cs: seq<ChainId>)
    requires t in conn.committed && conn.pending == [] && WellFormed(conn.committed)
    modifies conn
    ensures conn.Failed(old(conn.failures), ok)
    ensures SparedIn(old(conn.committed), conn.committed, t) && conn.pending == []
    ensures ok ==> Lists(cs, old(conn.committed)[t]) && conn.committed[t] == Cleaned(old(conn.committed)[t], cs)
  {
    ghost var rs := conn.committed;
    var names := Enumerate(conn.committed[t].chains.Keys);
    cs := names;
    ok := CleanBaseChains(conn, rs, t, names);
    if !ok {
      return;
    }
    ok := CleanDaemonChains(conn, rs, t, names);
    if !ok {
      return;
    }
    ghost var cur := ChainSteps(BaseClean(rs[t]), cs);
    hide BaseClean, ChainSteps, SetsClean, Lists, Spares, TableOk, WellFormed, Busy, SparedIn, ApplyAll;
    ghost var com, pending := conn.committed, conn.pending;
    BusyParts(com, pending, rs, t, cur);
    DeleteOwnedSets(conn, t, cur);
    BusySets(com, pending, rs, t, cur, conn.pending);
    if |conn.pending| > 0 {
      ok := conn.Flush();
    }
  }

  lemma BusySets(com: Ruleset, pending: seq<Op>, rs: Ruleset, t: TableId, cur: Table, pending': seq<Op>)
    requires Busy(com, pending, rs, t, cur) && ApplyAll(com, pending') == com[t := SetsClean(cur)]
    ensures SparedIn(rs, com[t := SetsClean(cur)], t) && SparedIn(rs, com, t)
    ensures pending' == [] ==> com == com[t := SetsClean(cur)]
  {
    BusyParts(com, pending, rs, t, cur);
    SetsCleanOk(t, cur);
    EndsSpare(cur);
    hide SetsClean, Spares, TableOk, WellFormed, SparedIn;
    BusyNext(com, pending, rs, t, cur, pending', SetsClean(cur));
  }

  lemma SetsCleanOk(t: TableId, tb: Table)
    requires TableOk(t, tb)
    ensures TableOk(t, SetsClean(tb))
  {
  }

  predicate IsLegacy(t: TableId) {
    t.family.Inet? && LegacyName(t.name)
  }

  ghost predicate CleanedSomehow(a: Table, b: Table) {
    exists cs :: Lists(cs, a) && b == Cleaned(a, cs)
  }

  /** Each legacy table has been cleaned, in some listing order. */
  ghost predicate AllCleaned(a: Ruleset, b: Ruleset) {
    a.Keys == b.Keys && forall t :: t in a && IsLegacy(t) ==> CleanedSomehow(a[t], b[t])
  }

  /** These are the inet tables "filter" and "nat". */
  lemma BothCleaned(a: Ruleset, b: Ruleset, t: TableId)
    requires AllCleaned(a, b) && t in a && t.family == Inet && (t.name == LegacyFilter || t.name == LegacyNat)
    ensures t in b && exists cs :: Lists(cs, a[t]) && b[t] == Cleaned(a[t], cs)
  {
    hide Cleaned, Lists;
    assert t in b && CleanedSomehow(a[t], b[t]);
  }

  /** Only the legacy tables have changed, and only by objects the daemon owned. */
  ghost predicate OnlyLegacy(a: Ruleset, b: Ruleset) {
    a.Keys == b.Keys && forall t :: t in a ==> if IsLegacy(t) then Spares(a[t], b[t]) else b[t] == a[t]
  }

  method CleanupLegacyTables(conn: Conn) returns (ok: bool)
    requires conn.pending == [] && WellFormed(conn.committed)
    modifies conn
    ensures conn.Failed(old(conn.failures), ok)
    ensures OnlyLegacy(old(conn.committed), conn.committed) && conn.pending == [] && WellFormed(conn.committed)
    ensures ok ==> AllCleaned(old(conn.committed), conn.committed)
  {
    ghost var rs := conn.committed;
    forall t | t in rs ensures Spares(rs[t], rs[t]) {
      SparesItself(rs[t]);
    }
    var ts := Enumerate(set t | t in conn.committed && t.family.Inet?);
    hide Cleaned, Lists, WellFormed, Spares;
    for i := 0 to |ts|
      invariant OnlyLegacy(rs, conn.committed) && conn.pending == [] && WellFormed(conn.committed)
      invariant conn.failures == old(conn.failures)
      invariant forall t :: t in rs && t !in ts[..i] ==> conn.committed[t] == rs[t]
      invariant forall t :: t in rs && t in ts[..i] && IsLegacy(t) ==> CleanedSomehow(rs[t], conn.committed[t])
    {
      var t := ts[i];
      assert t in ts && t !in ts[..i] && forall x :: x in ts[..i + 1] <==> x in ts[..i] || x == t;
      if LegacyName(t.name) {
        ghost var cs;
        ok, cs := CleanupLegacyTable(conn, t);
        if !ok {
          return;
        }
      }
    }
    assert ts[..|ts|] == ts;
    ok := true;
  }
}
