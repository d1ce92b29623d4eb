/** Chain names as the daemon renders them: sanitizing, truncating, suffixing,
    and when two chains get one name. */
module Naming {
  import opened Ids

  const MAX_NAME: int := 255
  const MAX_PLAIN: int := 31

  // ---------------------------------------------------------------- sanitizing

  predicate CleanChar(c: char) {
    ('a' <= c <= 'z') || ('A' <= c <= 'Z') || ('0' <= c <= '9') || c == '_' || c == '-' || c == '.'
  }

  predicate CleanText(s: string) {
    forall i :: 0 <= i < |s| ==> CleanChar(s[i])
  }

  function Sanitized(s: string): (r: string)
    ensures |r| == |s| && CleanText(r)
    ensures r == s <==> CleanText(s)
  {
    seq(|s|, i requires 0 <= i < |s| => if CleanChar(s[i]) then s[i] else '_')
  }

  /** The 32-bit hash of a name, as hexadecimal digits. */
  predicate HexText(s: string) {
    forall i :: 0 <= i < |s| ==> ('0' <= s[i] <= '9') || ('a' <= s[i] <= 'f')
  }

  ghost predicate Hasher(h: string -> string) {
    forall s :: |h(s)| == 8 && HexText(h(s))
  }

  /** truncateNftName; h gives the eight digits of the hash. */
  function Truncated(h: string -> string, name: string, max: int): (r: string)
    requires Hasher(h)
    ensures CleanText(r) && |r| <= if max <= 0 then 0 else max
    ensures |name| <= max ==> r == Sanitized(name)
    ensures |name| > max > 9 ==> |r| == max && r[..max - 9] == Sanitized(name)[..max - 9]
  {
    if max <= 0 then ""
    else
      var s, digits := Sanitized(name), h(name);
      if |s| <= max then s
      else if max <= 9 then (if max < 8 then digits[..max] else digits)
      else s[..max - 9] + "-" + digits
  }

  /** Letters, digits, '_', '-' and '.' stay, every other character becomes '_'. */
  lemma SanitizedChars(s: string, i: nat)
    requires i < |s|
    ensures Sanitized(s)[i] ==
            if ('a' <= s[i] <= 'z') || ('A' <= s[i] <= 'Z') || ('0' <= s[i] <= '9') || s[i] in "_-." then s[i] else '_'
  {
  }

  /** A name that is cut ends in a dash and the hash of the whole name, or is that
      hash where nothing else fits. */
  lemma CutName(h: string -> string, name: string, max: nat)
    requires Hasher(h) && |name| > max
    ensures max > 9 ==> Truncated(h, name, max)[max - 9..] == "-" + h(name)
    ensures 8 <= max <= 9 ==> Truncated(h, name, max) == h(name)
    ensures max < 8 ==> Truncated(h, name, max) == h(name)[..max]
  {
    var t := Truncated(h, name, max);
    if max > 9 {
      assert t[max - 9..] == "-" + h(name);
    }
  }

  /** nftNameWithSuffix: never too long, and the suffix survives. */
  function WithSuffix(h: string -> string, base: string, sep: string, suffix: string): (r: string)
    requires Hasher(h)
    ensures |r| <= MAX_NAME && CleanText(r)
    ensures |sep| + |suffix| < MAX_NAME ==>
              |sep| + |suffix| <= |r| && r[|r| - |sep| - |suffix|..] == Sanitized(sep) + Sanitized(suffix)
    ensures |base| + |sep| + |suffix| <= MAX_NAME ==> r == Sanitized(base) + Sanitized(sep) + Sanitized(suffix)
  {
    var a, b := Sanitized(sep), Sanitized(suffix);
    if |a| + |b| == 0 then
      SuffixNone(base, a, b);
      Truncated(h, base, MAX_NAME)
    else if |a| + |b| >= MAX_NAME then
      SuffixOnly(h, base, a, b);
      Truncated(h, base + a + b, MAX_NAME)
    else
      SuffixShort(Truncated(h, base, MAX_NAME - |a| - |b|), a, b);
      Truncated(h, base, MAX_NAME - |a| - |b|) + a + b
  }

  lemma SuffixNone(base: string, a: string, b: string)
    requires |a| + |b| == 0
    ensures Sanitized(base) + a + b == Sanitized(base)
  {
    hide Sanitized;
  }

  lemma SuffixOnly(h: string -> string, base: string, a: string, b: string)
    requires Hasher(h) && |a| + |b| >= MAX_NAME && CleanText(a) && CleanText(b)
    ensures |base| + |a| + |b| <= MAX_NAME ==>
              Truncated(h, base + a + b, MAX_NAME) == Sanitized(base) + a + b && |base + a + b| == MAX_NAME
  {
    hide Truncated;
    if |base| + |a| + |b| <= MAX_NAME {
      assert base == [] && base + a + b == a + b;
      assert Sanitized(a + b) == a + b && Sanitized(base) == [];
    }
  }

  lemma SuffixShort(t: string, a: string, b: string)
    requires CleanText(t) && CleanText(a) && CleanText(b)
    ensures |t + a + b| == |t| + |a| + |b| && (t + a + b)[|t|..] == a + b && CleanText(t + a + b)
  {
  }

  // ------------------------------------------------------------------- decimals

  function Digit(n: nat): char
    requires n < 10
  {
    '0' + n as char
  }

  function Decimal(n: nat): (s: string)
    ensures |s| > 0 && forall i :: 0 <= i < |s| ==> '0' <= s[i] <= '9'
  {
    if n < 10 then [Digit(n)] else Decimal(n / 10) + [Digit(n % 10)]
  }

  lemma {:induction false} DecimalInjective(m: nat, n: nat)
    requires Decimal(m) == Decimal(n)
    ensures m == n
  {
    var a, b := Decimal(m), Decimal(n);
    assert a[|a| - 1] == Digit(m % 10) && b[|b| - 1] == Digit(n % 10);
    if m >= 10 && n >= 10 {
      assert a[..|a| - 1] == Decimal(m / 10) && b[..|b| - 1] == Decimal(n / 10);
      DecimalInjective(m / 10, n / 10);
    }
  }

  /** The number a text of digits stands for. */
  function Value(s: string): nat
    requires forall i :: 0 <= i < |s| ==> '0' <= s[i] <= '9'
  {
    if s == "" then 0 else 10 * Value(s[..|s| - 1]) + (s[|s| - 1] - '0') as nat
  }

  lemma {:induction false} DecimalValue(n: nat)
    ensures Value(Decimal(n)) == n
  {
    var s := Decimal(n);
    if n < 10 {
      assert s[..0] == "";
    } else {
      DecimalValue(n / 10);
      assert s[..|s| - 1] == Decimal(n / 10);
    }
  }

  // ---------------------------------------------------------------- chain names

  function HookName(hook: Hook): string {
    match hook
    case InputHook => "input"
    case OutputHook => "output"
    case PreroutingHook => "prerouting"
  }

  function EntryName(d: Dir): string {
    match d
    case Ingress => "multi-ingress"
    case Egress => "multi-egress"
  }

  /** "namespace-name" */
  function RuleName(k: PolicyKey): string {
    k.ns + "-" + k.name
  }

  function PolicyName(h: string -> string, d: Dir, k: PolicyKey): (r: string)
    requires Hasher(h)
    ensures |r| <= MAX_NAME
  {
    EntryName(d) + "-" + Truncated(h, RuleName(k), MAX_NAME - |EntryName(d)| - 1)
  }

  predicate Rendered(c: ChainId) {
    !c.OtherChain?
  }

  /** The name of a chain before long names are hashed. */
  function LogicalName(h: string -> string, c: ChainId): string
    requires Hasher(h) && Rendered(c)
  {
    match c
    case BaseChain(hook) => HookName(hook)
    case EntryChain(d) => EntryName(d)
    case CommonChain(d) => EntryName(d) + "-common"
    case PolicyChain(d, k) => PolicyName(h, d, k)
    case PortsChain(d, k, n) => WithSuffix(h, PolicyName(h, d, k), "-", "ports-" + Decimal(n))
    case PeersChain(d, k, n) => WithSuffix(h, PolicyName(h, d, k), "-", "peers-" + Decimal(n))
  }

  /** The name given to the kernel: addChain hashes names over 31 characters. */
  function KernelName(h: string -> string, g: string -> string, c: ChainId): string
    requires Hasher(h) && Rendered(c)
  {
    var l := LogicalName(h, c);
    if |l| > MAX_PLAIN then g(l) else l
  }

  /** Names of up to 31 characters are sent as they are, longer ones as a hash. */
  lemma KernelSpelled(h: string -> string, g: string -> string, c: ChainId)
    requires Hasher(h) && Rendered(c)
    ensures KernelName(h, g, c) == if |LogicalName(h, c)| <= 31 then LogicalName(h, c) else g(LogicalName(h, c))
  {
  }

  // -------------------------------------------------------------------- lengths

  function RuleSuffix(c: ChainId): string {
    match c
    case PortsChain(_, _, n) => "ports-" + Decimal(n)
    case PeersChain(_, _, n) => "peers-" + Decimal(n)
    case _ => ""
  }

  lemma CleanSuffix(c: ChainId)
    ensures CleanText(RuleSuffix(c)) && Sanitized("-") == "-" && Sanitized(RuleSuffix(c)) == RuleSuffix(c)
  {
    if c.PortsChain? || c.PeersChain? {
      var digits := Decimal(c.index);
      assert forall i :: 0 <= i < |digits| ==> CleanChar(digits[i]);
      assert CleanText("ports-") && CleanText("peers-");
    }
    assert CleanText("-");
  }

  /** Every name fits the kernel, and however much of the policy name is cut off,
      the name of a ports or peers chain ends in its kind and index. */
  lemma NamesFit(h: string -> string, c: ChainId)
    requires Hasher(h) && Rendered(c)
    ensures |LogicalName(h, c)| <= 255
    ensures (c.PortsChain? || c.PeersChain?) && |RuleSuffix(c)| < MAX_NAME - 1 ==>
              var l, end := LogicalName(h, c), "-" + RuleSuffix(c); |end| <= |l| && l[|l| - |end|..] == end
  {
    hide Truncated, Hasher, PolicyName, WithSuffix, Decimal;
    if c.PortsChain? || c.PeersChain? {
      CleanSuffix(c);
      RuleLogical(h, c);
    }
  }

  // ------------------------------------------------------------------ collisions

  /** The part of a name that tells the chains of one direction and namespace apart. */
  function Tail(c: ChainId): string
    requires c.PolicyChain? || c.PortsChain? || c.PeersChain?
  {
    if c.PolicyChain? then c.key.name else c.key.name + "-" + RuleSuffix(c)
  }

  predicate PolicyOwned(c: ChainId) {
    c.PolicyChain? || c.PortsChain? || c.PeersChain?
  }

  /** The whole name: direction, namespace, tail. */
  function FullName(c: ChainId): string
    requires PolicyOwned(c)
  {
    EntryName(c.dir) + "-" + c.key.ns + "-" + Tail(c)
  }

  /** Names of clean characters that are short enough not to be cut. */
  predicate Untruncated(c: ChainId) {
    PolicyOwned(c) ==> CleanText(c.key.ns) && CleanText(c.key.name) && |FullName(c)| <= MAX_NAME
  }

  lemma RuleNameClean(k: PolicyKey)
    requires CleanText(k.ns) && CleanText(k.name)
    ensures CleanText(RuleName(k))
  {
    assert CleanText("-");
  }

  lemma CleanJoin(a: string, b: string)
    requires CleanText(a) && CleanText(b)
    ensures CleanText(a + "-" + b)
  {
  }

  lemma EntryClean(d: Dir)
    ensures CleanText(EntryName(d)) && |EntryName(d)| <= 13
  {
  }

  lemma UntruncatedPolicy(h: string -> string, d: Dir, k: PolicyKey)
    requires Hasher(h) && CleanText(k.ns) && CleanText(k.name) && |EntryName(d)| + 1 + |RuleName(k)| <= MAX_NAME
    ensures PolicyName(h, d, k) == EntryName(d) + "-" + RuleName(k) && CleanText(PolicyName(h, d, k))
  {
    hide Truncated, EntryName, RuleName, Hasher;
    RuleNameClean(k);
    EntryClean(d);
    CleanJoin(EntryName(d), RuleName(k));
  }

  /** The full name, from the policy's part and the rule's. */
  lemma FullNameJoins(c: ChainId)
    requires PolicyOwned(c)
    ensures var p := EntryName(c.dir) + "-" + RuleName(c.key);
            FullName(c) == (if c.PolicyChain? then p else p + "-" + RuleSuffix(c)) && |p| <= |FullName(c)|
  {
    hide EntryName, RuleSuffix;
    var e, k := EntryName(c.dir), c.key;
    assert e + "-" + RuleName(k) == e + "-" + k.ns + "-" + k.name;
  }

  lemma UntruncatedName(h: string -> string, c: ChainId)
    requires Hasher(h) && PolicyOwned(c) && Untruncated(c)
    ensures LogicalName(h, c) == FullName(c)
  {
    FullNameJoins(c);
    UntruncatedPolicy(h, c.dir, c.key);
    CleanSuffix(c);
    hide EntryName, RuleName, PolicyName, WithSuffix, FullName, Hasher, Decimal;
    var p := PolicyName(h, c.dir, c.key);
    if !c.PolicyChain? {
      assert LogicalName(h, c) == WithSuffix(h, p, "-", RuleSuffix(c));
    }
  }

  /** The names of the fixed chains as they are sent. */
  lemma FixedSpelled(h: string -> string)
    requires Hasher(h)
    ensures LogicalName(h, BaseChain(InputHook)) == "input" && LogicalName(h, BaseChain(OutputHook)) == "output"
    ensures LogicalName(h, BaseChain(PreroutingHook)) == "prerouting"
    ensures LogicalName(h, EntryChain(Ingress)) == "multi-ingress" &&
            LogicalName(h, EntryChain(Egress)) == "multi-egress"
    ensures LogicalName(h, CommonChain(Ingress)) == "multi-ingress-common"
    ensures LogicalName(h, CommonChain(Egress)) == "multi-egress-common"
  {
    hide Hasher;
    assert "multi-ingress" + "-common" == "multi-ingress-common" && "multi-egress" + "-common" == "multi-egress-common";
  }

  /** The beginning of every policy chain name. */
  function Start(d: Dir): string {
    if d == Ingress then "multi-ingress-" else "multi-egress-"
  }

  /** The names of policy, ports and peers chains, uncut, as they are sent. */
  lemma PolicySpelled(h: string -> string, d: Dir, k: PolicyKey, n: nat)
    requires Hasher(h) && CleanText(k.ns) && CleanText(k.name) && |k.ns| + |k.name| + |Decimal(n)| <= 200
    ensures LogicalName(h, PolicyChain(d, k)) == Start(d) + k.ns + "-" + k.name
    ensures LogicalName(h, PortsChain(d, k, n)) == Start(d) + k.ns + "-" + k.name + "-ports-" + Decimal(n)
    ensures LogicalName(h, PeersChain(d, k, n)) == Start(d) + k.ns + "-" + k.name + "-peers-" + Decimal(n)
  {
    StartIs(d);
    EntryClean(d);
    hide Hasher, Decimal, LogicalName, EntryName, Start, CleanText;
    UntruncatedName(h, PolicyChain(d, k));
    UntruncatedName(h, PortsChain(d, k, n));
    UntruncatedName(h, PeersChain(d, k, n));
    Dashed(EntryName(d), Start(d), k.ns, k.name, "ports-", "-ports-", Decimal(n));
    Dashed(EntryName(d), Start(d), k.ns, k.name, "peers-", "-peers-", Decimal(n));
  }

  lemma StartIs(d: Dir)
    ensures Start(d) == EntryName(d) + "-"
  {
  }

  lemma Dashed(e: string, f: string, ns: string, name: string, kind: string, dashed: string, n: string)
    requires f == e + "-" && dashed == "-" + kind
    ensures e + "-" + ns + "-" + name == f + ns + "-" + name
    ensures e + "-" + ns + "-" + (name + "-" + (kind + n)) == f + ns + "-" + name + dashed + n
  {
    var x, y := e + "-" + ns + "-" + (name + "-" + (kind + n)), f + ns + "-" + name + dashed + n;
    assert x == f + (ns + "-" + (name + ("-" + kind) + n));
    assert y == f + (ns + "-" + (name + dashed + n));
  }

  lemma {:induction false} SplitAtDash(a: string, x: string, b: string, y: string)
    requires '-' !in x && '-' !in y && a + "-" + x == b + "-" + y
    ensures a == b && x == y
  {
    var s := a + "-" + x;
    assert s[|a|] == '-' && s[|b|] == '-';
    assert s[..|a|] == a && s[..|b|] == b;
    assert s[|a| + 1..] == x && s[|b| + 1..] == y;
  }

  lemma DecimalNoDash(n: nat)
    ensures '-' !in Decimal(n)
  {
  }

  function Kind(c: ChainId): string {
    if c.PortsChain? then "ports" else "peers"
  }

  lemma RuleTail(c: ChainId)
    requires c.PortsChain? || c.PeersChain?
    ensures Tail(c) == c.key.name + "-" + Kind(c) + "-" + Decimal(c.index)
  {
  }

  /** Two chains of rules with one tail are one chain. */
  lemma RuleTails(a: ChainId, b: ChainId)
    requires (a.PortsChain? || a.PeersChain?) && (b.PortsChain? || b.PeersChain?) && Tail(a) == Tail(b)
    ensures a.key.name == b.key.name && a.index == b.index && (a.PortsChain? <==> b.PortsChain?)
  {
    RuleTail(a);
    RuleTail(b);
    DecimalNoDash(a.index);
    DecimalNoDash(b.index);
    hide Decimal;
    SplitAtDash(a.key.name + "-" + Kind(a), Decimal(a.index), b.key.name + "-" + Kind(b), Decimal(b.index));
    DecimalInjective(a.index, b.index);
    SplitAtDash(a.key.name, Kind(a), b.key.name, Kind(b));
    assert "ports"[1] != "peers"[1];
  }

  /** A policy is named like another's ports or peers chain. */
  predicate Clash(a: ChainId, b: ChainId) {
    a.PolicyChain? && (b.PortsChain? || b.PeersChain?) && a.dir == b.dir &&
      a.key.name == b.key.name + "-" + RuleSuffix(b)
  }

  lemma FullNameParts(a: ChainId, b: ChainId)
    requires PolicyOwned(a) && PolicyOwned(b) && a.key.ns == b.key.ns
    ensures FullName(a) == FullName(b) <==> a.dir == b.dir && Tail(a) == Tail(b)
  {
    hide Tail;
    var x, y := FullName(a), FullName(b);
    assert x[6] == EntryName(a.dir)[6] && y[6] == EntryName(b.dir)[6];
    if a.dir == b.dir {
      var n := |EntryName(a.dir)| + |a.key.ns| + 2;
      assert x[n..] == Tail(a) && y[n..] == Tail(b);
    }
  }

  /** Within a namespace, untruncated names of policy chains collide exactly for
      one chain, or when a policy is named like another's rule chain. */
  lemma PolicyNamesCollide(h: string -> string, a: ChainId, b: ChainId)
    requires Hasher(h) && PolicyOwned(a) && PolicyOwned(b) && a.key.ns == b.key.ns && Untruncated(a) && Untruncated(b)
    ensures LogicalName(h, a) == LogicalName(h, b) <==> a == b || Clash(a, b) || Clash(b, a)
  {
    UntruncatedName(h, a);
    UntruncatedName(h, b);
    FullNameParts(a, b);
    hide LogicalName, FullName, RuleSuffix;
    if !a.PolicyChain? && !b.PolicyChain? && Tail(a) == Tail(b) {
      RuleTails(a, b);
    }
  }

  /** Fixed chains have names of their own, whether other names are cut or not. */
  lemma FixedNames(h: string -> string, a: ChainId, b: ChainId)
    requires Hasher(h) && Rendered(a) && Rendered(b) && !PolicyOwned(a)
    ensures LogicalName(h, a) == LogicalName(h, b) <==> a == b
  {
    if b.PolicyChain? {
      PolicyApart(h, a, b.dir, b.key);
    } else if PolicyOwned(b) {
      RuleApart(h, a, b);
    } else {
      assert EntryName(Ingress)[6] == 'i' && EntryName(Egress)[6] == 'e';
      assert |EntryName(Ingress)| == 13 && |EntryName(Egress)| == 12;
      assert "-common"[0] == '-' && |"-common"| == 7;
    }
  }

  lemma FixedLength(h: string -> string, a: ChainId)
    requires Hasher(h) && Rendered(a) && !PolicyOwned(a)
    ensures 0 < |LogicalName(h, a)| <= 20
    ensures var l := LogicalName(h, a); 'a' <= l[|l| - 1] <= 'z'
  {
  }

  /** What follows the entry name in a policy chain's name has a dash of its own, or
      is very long. */
  lemma TruncatedRest(h: string -> string, k: PolicyKey, max: int)
    requires Hasher(h) && max > 20
    ensures var t := Truncated(h, RuleName(k), max); |t| > 20 || '-' in t
  {
    hide Truncated, Hasher;
    var t := Truncated(h, RuleName(k), max);
    if |RuleName(k)| <= max {
      assert RuleName(k)[|k.ns|] == '-';
      assert t[|k.ns|] == '-';
    }
  }

  lemma PolicyApart(h: string -> string, a: ChainId, d: Dir, k: PolicyKey)
    requires Hasher(h) && Rendered(a) && !PolicyOwned(a)
    ensures LogicalName(h, a) != PolicyName(h, d, k)
  {
    var e, y := EntryName(d), PolicyName(h, d, k);
    var t := Truncated(h, RuleName(k), MAX_NAME - |e| - 1);
    EntryClean(d);
    TruncatedRest(h, k, MAX_NAME - |e| - 1);
    hide Truncated, Hasher, RuleName;
    assert y[0] == e[0] == 'm' && y[6] == e[6] && y == e + "-" + t;
    match a {
      case BaseChain(hook) => assert HookName(hook)[0] != 'm';
      case EntryChain(d') => assert EntryName(d')[6] == (if d'.Ingress? then 'i' else 'e');
      case CommonChain(d') => CommonApart(d', d, t);
    }
  }

  lemma SameEnd(e: string, u: string, v: string)
    requires e + u == e + v
    ensures u == v
  {
    assert (e + u)[|e|..] == u && (e + v)[|e|..] == v;
  }

  lemma EntryLetter(d: Dir, u: string)
    ensures (EntryName(d) + u)[6] == if d == Ingress then 'i' else 'e'
  {
  }

  lemma NotCommon(t: string)
    requires |t| > 20 || '-' in t
    ensures "-" + t != "-common"
  {
    if "-" + t == "-common" {
      SameEnd("-", t, "common");
    }
  }

  lemma CommonApart(c: Dir, d: Dir, t: string)
    requires |t| > 20 || '-' in t
    ensures EntryName(c) + "-common" != EntryName(d) + "-" + t
  {
    hide EntryName;
    var x, y := EntryName(c) + "-common", EntryName(d) + "-" + t;
    assert y == EntryName(d) + ("-" + t);
    EntryLetter(c, "-common");
    EntryLetter(d, "-" + t);
    if x == y {
      SameEnd(EntryName(d), "-common", "-" + t);
      NotCommon(t);
    }
  }

  /** The name of a rule chain ends in a digit, or is as long as can be. */
  lemma RuleApart(h: string -> string, a: ChainId, b: ChainId)
    requires Hasher(h) && Rendered(a) && !PolicyOwned(a) && (b.PortsChain? || b.PeersChain?)
    ensures LogicalName(h, a) != LogicalName(h, b)
  {
    hide Hasher, Truncated, PolicyName;
    FixedLength(h, a);
    RuleEnd(h, b);
  }

  lemma LastOfSuffix(l: string, s: string)
    requires 1 + |s| <= |l| && s != [] && l[|l| - 1 - |s|..] == "-" + s
    ensures l[|l| - 1] == s[|s| - 1]
  {
    assert l[|l| - 1] == l[|l| - 1 - |s|..][|s|];
  }

  lemma RuleEnd(h: string -> string, b: ChainId)
    requires Hasher(h) && (b.PortsChain? || b.PeersChain?)
    ensures var l := LogicalName(h, b); |l| == MAX_NAME || (|l| > 0 && '0' <= l[|l| - 1] <= '9')
  {
    hide Hasher, Truncated, PolicyName, Decimal, RuleSuffix, LogicalName;
    var p, s := PolicyName(h, b.dir, b.key), RuleSuffix(b);
    CleanSuffix(b);
    SuffixDigit(b);
    PolicyLong(h, b.dir, b.key);
    RuleLogical(h, b);
    var l := WithSuffix(h, p, "-", s);
    if 1 + |s| < MAX_NAME {
      LastOfSuffix(l, s);
    } else {
      TooLong(h, p, s);
    }
  }

  lemma RuleLogical(h: string -> string, b: ChainId)
    requires Hasher(h) && (b.PortsChain? || b.PeersChain?)
    ensures LogicalName(h, b) == WithSuffix(h, PolicyName(h, b.dir, b.key), "-", RuleSuffix(b))
  {
    hide Hasher, WithSuffix, PolicyName, Decimal;
  }

  lemma SuffixDigit(b: ChainId)
    requires b.PortsChain? || b.PeersChain?
    ensures var s := RuleSuffix(b); |s| > 0 && '0' <= s[|s| - 1] <= '9'
  {
    var digits := Decimal(b.index);
    assert RuleSuffix(b)[|RuleSuffix(b)| - 1] == digits[|digits| - 1];
  }

  lemma PolicyLong(h: string -> string, d: Dir, k: PolicyKey)
    requires Hasher(h)
    ensures |PolicyName(h, d, k)| > 10 && PolicyName(h, d, k)[0] == 'm'
  {
    hide Truncated, Hasher;
    assert PolicyName(h, d, k)[0] == EntryName(d)[0];
  }

  /** A suffix that fills the name is cut with the rest. */
  lemma TooLong(h: string -> string, p: string, s: string)
    requires Hasher(h) && 1 + |s| >= MAX_NAME && |p| > 10 && p[0] == 'm'
    ensures var l := WithSuffix(h, p, "-", s); |l| == MAX_NAME && l[0] == 'm'
  {
    hide Truncated, Hasher;
    var name := p + Sanitized("-") + Sanitized(s);
    var l := Truncated(h, name, MAX_NAME);
    assert WithSuffix(h, p, "-", s) == l;
    assert Sanitized(name)[0] == 'm' && l[..MAX_NAME - 9][0] == Sanitized(name)[..MAX_NAME - 9][0];
  }

  /** No name can be taken for a hash, cut or not. */
  lemma NamesAreNotHashes(h: string -> string, c: ChainId)
    requires Hasher(h) && Rendered(c)
    ensures !HexText(LogicalName(h, c))
  {
    var l := LogicalName(h, c);
    if c.PortsChain? || c.PeersChain? {
      RuleNotHash(h, c);
    } else if c.PolicyChain? {
      PolicyLong(h, c.dir, c.key);
    } else if c.BaseChain? {
      assert l[1] == HookName(c.hook)[1] && !('a' <= l[1] <= 'f');
    } else {
      assert l[0] == 'm';
    }
  }

  lemma RuleNotHash(h: string -> string, c: ChainId)
    requires Hasher(h) && (c.PortsChain? || c.PeersChain?)
    ensures !HexText(LogicalName(h, c))
  {
    var p, s := PolicyName(h, c.dir, c.key), RuleSuffix(c);
    CleanSuffix(c);
    PolicyLong(h, c.dir, c.key);
    hide Hasher, Truncated, PolicyName, Decimal, RuleSuffix;
    RuleLogical(h, c);
    var l := WithSuffix(h, p, "-", s);
    if 1 + |s| < MAX_NAME {
      assert l[|l| - 1 - |s|] == l[|l| - 1 - |s|..][0] == '-';
    } else {
      TooLong(h, p, s);
    }
  }

  /** Chains never share a kernel name, provided the hash keeps their names apart:
      a fixed chain with no other, and chains of policies of one namespace whose
      names are not cut only if a policy is named like a rule chain of another. */
  lemma ChainNamesDoNotCollide(h: string -> string, g: string -> string, a: ChainId, b: ChainId)
    requires Hasher(h) && (forall s :: HexText(g(s))) && Rendered(a) && Rendered(b)
    requires PolicyOwned(a) && PolicyOwned(b) ==> a.key.ns == b.key.ns && Untruncated(a) && Untruncated(b)
    requires g(LogicalName(h, a)) == g(LogicalName(h, b)) ==> LogicalName(h, a) == LogicalName(h, b)
    ensures KernelName(h, g, a) == KernelName(h, g, b) <==> a == b || Clash(a, b) || Clash(b, a)
  {
    NamesAreNotHashes(h, a);
    NamesAreNotHashes(h, b);
    if PolicyOwned(a) && PolicyOwned(b) {
      PolicyNamesCollide(h, a, b);
    } else if !PolicyOwned(a) {
      FixedNames(h, a, b);
    } else {
      FixedNames(h, b, a);
    }
  }

  /** Across namespaces names do collide: the dash is no separator. */
  lemma NamespacesCollide(h: string -> string)
    requires Hasher(h)
    ensures var a, b := PolicyKey("x-y", "z"), PolicyKey("x", "y-z");
            LogicalName(h, PolicyChain(Ingress, a)) == LogicalName(h, PolicyChain(Ingress, b))
  {
    assert RuleName(PolicyKey("x-y", "z")) == "x-y-z" == RuleName(PolicyKey("x", "y-z"));
  }

  // ------------------------------------------------------------------- direction

  predicate IsIngressName(s: string) {
    |EntryName(Ingress)| <= |s| && s[..|EntryName(Ingress)|] == EntryName(Ingress)
  }

  lemma EntryPrefix(d: Dir, s: string)
    requires |EntryName(d)| + 1 <= |s| && s[..|EntryName(d)| + 1] == EntryName(d) + "-"
    ensures IsIngressName(s) <==> d.Ingress?
  {
    assert s[6] == s[..|EntryName(d)| + 1][6] == EntryName(d)[6];
    assert |s| >= 13 ==> s[..13][6] == s[6];
    assert d.Ingress? ==> s[..13] == s[..14][..13];
  }

  /** Cut or not, the name of a policy chain still tells its direction. */
  lemma DirectionReadable(h: string -> string, d: Dir, k: PolicyKey)
    requires Hasher(h)
    ensures IsIngressName(LogicalName(h, PolicyChain(d, k))) <==> d.Ingress?
  {
    var s := LogicalName(h, PolicyChain(d, k));
    assert s[..|EntryName(d)| + 1] == EntryName(d) + "-";
    EntryPrefix(d, s);
  }

  /** So does the name of a rule chain. */
  lemma RuleDirectionReadable(h: string -> string, c: ChainId)
    requires Hasher(h) && (c.PortsChain? || c.PeersChain?) && |RuleSuffix(c)| <= 200
    ensures IsIngressName(LogicalName(h, c)) <==> c.dir.Ingress?
  {
    hide Truncated, Hasher, Decimal, WithSuffix, RuleName;
    var e, p := EntryName(c.dir), PolicyName(h, c.dir, c.key);
    assert p[..|e| + 1] == e + "-";
    EntryClean(c.dir);
    assert CleanText(e + "-");
    SuffixKeepsHead(h, p, RuleSuffix(c), e + "-");
    assert LogicalName(h, c) == WithSuffix(h, p, "-", RuleSuffix(c));
    EntryPrefix(c.dir, LogicalName(h, c));
  }

  lemma SuffixKeepsHead(h: string -> string, p: string, suffix: string, head: string)
    requires Hasher(h) && 0 < |suffix| <= 200 && CleanText(head) && |head| <= |p| && p[..|head|] == head && |head| <= 20
    ensures var r := WithSuffix(h, p, "-", suffix); |head| <= |r| && r[..|head|] == head
  {
    hide Truncated, Hasher;
    KeepsHead(h, p, MAX_NAME - 1 - |suffix|, head);
    var t := Truncated(h, p, MAX_NAME - 1 - |suffix|);
    assert WithSuffix(h, p, "-", suffix) == t + Sanitized("-") + Sanitized(suffix);
    assert (t + Sanitized("-") + Sanitized(suffix))[..|head|] == t[..|head|];
  }

  /** Cutting keeps a short clean head. */
  lemma KeepsHead(h: string -> string, p: string, max: int, head: string)
    requires Hasher(h) && CleanText(head) && |head| <= |p| && p[..|head|] == head && |head| <= 20 && max >= 30
    ensures var t := Truncated(h, p, max); |head| <= |t| && t[..|head|] == head
  {
    hide Truncated, Hasher;
    var q, t, n := Sanitized(p), Truncated(h, p, max), |head|;
    assert q[..n] == head by {
      forall i | 0 <= i < n ensures q[i] == head[i] {
        assert p[i] == p[..n][i];
      }
    }
    if |p| > max {
      assert t[..n] == t[..max - 9][..n];
      assert q[..n] == q[..max - 9][..n];
    }
  }
}
