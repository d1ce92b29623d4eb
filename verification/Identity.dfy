/** When the daemon takes two rules for the same rule: `ruleEqual` decides
    whether a wanted rule is already installed, the hash key decides whether an
    installed rule is stale. */
module Identity {
  import opened Ids
  import opened Machine
  import Marks

  predicate Supported(e: Expr) {
    !e.Unsupported?
  }

  predicate SupportedRule(r: Rule) {
    forall i :: 0 <= i < |r.exprs| ==> Supported(r.exprs[i])
  }

  /** One arm of the type switch: counters are equal whatever they count, an
      expression of an unknown type is equal to nothing. */
  predicate ExprEqual(a: Expr, b: Expr) {
    match a
    case Counter(_) => b.Counter?
    case Unsupported(_) => false
    case _ => a == b
  }

  predicate RuleEqual(a: Rule, b: Rule) {
    && a.chain == b.chain
    && a.table.name == b.table.name
    && |a.exprs| == |b.exprs|
    && a.comment == b.comment
    && forall i :: 0 <= i < |a.exprs| ==> ExprEqual(a.exprs[i], b.exprs[i])
  }

  /** The data that `newRuleData` hands to the hash; the hash itself is taken to
      be injective.  Counters and expressions of unknown type leave no trace. */
  datatype Key = Key(table: TableId, chain: ChainId, comment: Comment, exprs: seq<Expr>)

  function Hashed(es: seq<Expr>): seq<Expr> {
    if es == [] then []
    else Hashed(es[..|es| - 1]) + (if es[|es| - 1].Counter? || es[|es| - 1].Unsupported? then [] else [es[|es| - 1]])
  }

  function KeyOf(r: Rule): Key {
    Key(r.table, r.chain, r.comment, Hashed(r.exprs))
  }

  /** The encoder's loop over the expressions of a rule. */
  method NewRuleData(r: Rule) returns (k: Key)
    ensures k == KeyOf(r)
  {
    var es := [];
    for i := 0 to |r.exprs|
      invariant es == Hashed(r.exprs[..i])
    {
      assert r.exprs[..i + 1][..i] == r.exprs[..i];
      if !r.exprs[i].Counter? && !r.exprs[i].Unsupported? {
        es := es + [r.exprs[i]];
      }
    }
    assert r.exprs[..|r.exprs|] == r.exprs;
    k := Key(r.table, r.chain, r.comment, es);
  }

  /** A rule with all its counters at zero. */
  function Zeroed(e: Expr): Expr {
    if e.Counter? then Counter(0) else e
  }

  function Strip(r: Rule): (s: Rule)
    ensures |s.exprs| == |r.exprs|
  {
    Rule(r.table, r.chain, r.comment, seq(|r.exprs|, i requires 0 <= i < |r.exprs| => Zeroed(r.exprs[i])))
  }

  // ------------------------------------------------------------ properties

  lemma RuleEqualReflexive(r: Rule)
    ensures RuleEqual(r, r) <==> SupportedRule(r)
  {
    if !SupportedRule(r) {
      var i :| 0 <= i < |r.exprs| && !Supported(r.exprs[i]);
      assert !ExprEqual(r.exprs[i], r.exprs[i]);
    }
  }

  lemma RuleEqualSymmetric(a: Rule, b: Rule)
    requires RuleEqual(a, b)
    ensures RuleEqual(b, a)
  {
    forall i | 0 <= i < |b.exprs| ensures ExprEqual(b.exprs[i], a.exprs[i]) {
      assert ExprEqual(a.exprs[i], b.exprs[i]);
    }
  }

  lemma RuleEqualTransitive(a: Rule, b: Rule, c: Rule)
    requires RuleEqual(a, b) && RuleEqual(b, c)
    ensures RuleEqual(a, c)
  {
    forall i | 0 <= i < |a.exprs| ensures ExprEqual(a.exprs[i], c.exprs[i]) {
      assert ExprEqual(a.exprs[i], b.exprs[i]) && ExprEqual(b.exprs[i], c.exprs[i]);
    }
  }

  /** Within one table, rules are equal exactly when they are made of known
      expressions and agree once their counters are zeroed. */
  lemma RuleEqualIsStripEqual(a: Rule, b: Rule)
    requires a.table == b.table
    ensures RuleEqual(a, b) <==> SupportedRule(a) && Strip(a) == Strip(b)
  {
    if RuleEqual(a, b) {
      forall i | 0 <= i < |a.exprs|
        ensures Supported(a.exprs[i]) && Strip(a).exprs[i] == Strip(b).exprs[i]
      {
        assert ExprEqual(a.exprs[i], b.exprs[i]);
      }
    }
    if SupportedRule(a) && Strip(a) == Strip(b) {
      assert |a.exprs| == |b.exprs|;
      forall i | 0 <= i < |a.exprs| ensures ExprEqual(a.exprs[i], b.exprs[i]) {
        assert Supported(a.exprs[i]) && Strip(a).exprs[i] == Strip(b).exprs[i];
      }
    }
  }

  lemma {:induction false} HashedEqual(a: seq<Expr>, b: seq<Expr>)
    requires |a| == |b| && forall i :: 0 <= i < |a| ==> ExprEqual(a[i], b[i])
    ensures Hashed(a) == Hashed(b)
  {
    if a != [] {
      var n := |a| - 1;
      assert ExprEqual(a[n], b[n]);
      assert forall i :: 0 <= i < n ==> a[..n][i] == a[i] && b[..n][i] == b[i];
      HashedEqual(a[..n], b[..n]);
    }
  }

  /** Equal rules have equal keys exactly when their tables are of one family:
      `ruleEqual` compares table names only, the key holds the family too. */
  lemma RuleEqualSameKey(a: Rule, b: Rule)
    requires RuleEqual(a, b)
    ensures KeyOf(a) == KeyOf(b) <==> a.table.family == b.table.family
  {
    HashedEqual(a.exprs, b.exprs);
  }

  lemma StripKey(r: Rule)
    ensures KeyOf(Strip(r)) == KeyOf(r)
  {
    HashedStrip(r.exprs, Strip(r).exprs);
  }

  lemma {:induction false} HashedStrip(a: seq<Expr>, b: seq<Expr>)
    requires |a| == |b| && forall i :: 0 <= i < |a| ==> b[i] == Zeroed(a[i])
    ensures Hashed(a) == Hashed(b)
  {
    if a != [] {
      var n := |a| - 1;
      assert b[n] == Zeroed(a[n]);
      assert forall i :: 0 <= i < n ==> a[..n][i] == a[i] && b[..n][i] == b[i];
      HashedStrip(a[..n], b[..n]);
    }
  }

  // ---------------------------------------------------------- forced update

  /** The index of the first counter of a rule. */
  function CounterAt(es: seq<Expr>, i: nat): (k: nat)
    requires i <= |es|
    ensures i <= k <= |es|
    ensures k < |es| ==> es[k].Counter?
    ensures forall j :: i <= j < k ==> !es[j].Counter?
    decreases |es| - i
  {
    if i == |es| || es[i].Counter? then i else CounterAt(es, i + 1)
  }

  /** The counter swap of a forced update: the first counter of the new rule
      becomes the first counter of the rule it replaces. */
  function WithCounterOf(r: Rule, existing: Rule): Rule {
    var i, j := CounterAt(existing.exprs, 0), CounterAt(r.exprs, 0);
    if i < |existing.exprs| && j < |r.exprs| then r.(exprs := r.exprs[j := existing.exprs[i]]) else r
  }

  /** Swapping counters changes neither the identity nor the key of a rule. */
  lemma CounterSwap(r: Rule, existing: Rule)
    ensures var w := WithCounterOf(r, existing);
            && Strip(w) == Strip(r)
            && KeyOf(w) == KeyOf(r)
            && (SupportedRule(r) ==> RuleEqual(r, w) && SupportedRule(w))
  {
    var w := WithCounterOf(r, existing);
    assert Strip(w) == Strip(r);
    StripKey(w);
    StripKey(r);
    if SupportedRule(r) {
      RuleEqualIsStripEqual(r, w);
      RuleEqualReflexive(r);
      RuleEqualSymmetric(r, w);
      RuleEqualTransitive(w, r, w);
      RuleEqualReflexive(w);
    }
  }

  /** The count of the replaced rule is kept: its first counter stands where the
      first counter of the new rule stood, and nothing else has changed. */
  lemma CounterKept(r: Rule, existing: Rule, i: nat, j: nat)
    requires i < |existing.exprs| && existing.exprs[i].Counter?
    requires forall k :: 0 <= k < i ==> !existing.exprs[k].Counter?
    requires j < |r.exprs| && r.exprs[j].Counter? && forall k :: 0 <= k < j ==> !r.exprs[k].Counter?
    ensures WithCounterOf(r, existing) == r.(exprs := r.exprs[j := Counter(existing.exprs[i].packets)])
  {
    var a, b := CounterAt(existing.exprs, 0), CounterAt(r.exprs, 0);
    assert a == i && b == j;
  }

  /** Without a counter on either side nothing changes. */
  lemma NoCounter(r: Rule, existing: Rule)
    requires (forall k :: 0 <= k < |r.exprs| ==> !r.exprs[k].Counter?) ||
             forall k :: 0 <= k < |existing.exprs| ==> !existing.exprs[k].Counter?
    ensures WithCounterOf(r, existing) == r
  {
  }

  // ------------------------------------------------------------- behaviour

  lemma {:induction false} HashedSnocBare(es: seq<Expr>, e: Expr)
    ensures Bare(es + [e]) == Bare(es) + (if e.Counter? then [] else [e])
  {
    if es == [] {
      assert es + [e] == [e];
      assert [e][1..] == [];
    } else {
      var head := if es[0].Counter? then [] else [es[0]];
      var last := if e.Counter? then [] else [e];
      HashedSnocBare(es[1..], e);
      assert (es + [e])[0] == es[0] && (es + [e])[1..] == es[1..] + [e];
      assert head + (Bare(es[1..]) + last) == (head + Bare(es[1..])) + last;
    }
  }

  lemma {:induction false} HashedIsBare(es: seq<Expr>)
    requires forall i :: 0 <= i < |es| ==> Supported(es[i])
    ensures Hashed(es) == Bare(es)
  {
    if es != [] {
      var n := |es| - 1;
      assert es == es[..n] + [es[n]];
      assert Supported(es[n]);
      HashedIsBare(es[..n]);
      HashedSnocBare(es[..n], es[n]);
    }
  }

  /** Rules of known expressions with one key do the same to every packet. */
  lemma SameKeySameEffect(t: Table, p: Packet, a: Rule, b: Rule, m: Marks.Mark)
    requires SupportedRule(a) && SupportedRule(b) && KeyOf(a) == KeyOf(b)
    ensures Exec(t, p, a, m) == Exec(t, p, b, m)
  {
    HashedIsBare(a.exprs);
    HashedIsBare(b.exprs);
    BareRun(t, p, a.exprs, Running(Num(0), m));
    BareRun(t, p, b.exprs, Running(Num(0), m));
  }
}
