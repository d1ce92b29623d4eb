/** Interval sets: inclusive ranges become a start element and an exclusive end
    element; an end past the top of the space wraps to zero. */
module Intervals {
  import opened Ids
  import opened Machine

  /** The inclusive range lo..hi. */
  datatype Range = Range(lo: nat, hi: nat)

  ghost predicate Within(r: Range, top: nat) {
    r.lo <= r.hi < top
  }

  ghost predicate AllWithin(rs: seq<Range>, top: nat) {
    forall i :: 0 <= i < |rs| ==> Within(rs[i], top)
  }

  predicate Holds(r: Range, x: nat) {
    r.lo <= x <= r.hi
  }

  ghost predicate InSome(rs: seq<Range>, x: nat) {
    exists i :: 0 <= i < |rs| && Holds(rs[i], x)
  }

  function EndKey(r: Range, top: nat): nat {
    if r.hi + 1 == top then 0 else r.hi + 1
  }

  function EncodeRange(r: Range, top: nat): seq<Elem> {
    [Elem(Num(r.lo), false), Elem(Num(EndKey(r, top)), true)]
  }

  function Encode(rs: seq<Range>, top: nat): seq<Elem> {
    if rs == [] then []
    else Encode(rs[..|rs| - 1], top) + EncodeRange(rs[|rs| - 1], top)
  }

  function Elems(es: seq<Elem>): set<Elem> {
    set e | e in es
  }

  lemma ElemsConcat(a: seq<Elem>, b: seq<Elem>)
    ensures Elems(a + b) == Elems(a) + Elems(b)
  {
  }

  /** An end that falls inside the union must also be a start. */
  ghost predicate NoInnerEnd(rs: seq<Range>, top: nat) {
    forall j :: 0 <= j < |rs| && rs[j].hi + 1 < top && InSome(rs, rs[j].hi + 1) ==> IsStart(rs, rs[j].hi + 1)
  }

  ghost predicate IsStart(rs: seq<Range>, x: nat) {
    exists k :: 0 <= k < |rs| && rs[k].lo == x
  }

  predicate Apart(a: Range, b: Range) {
    a.hi < b.lo || b.hi < a.lo
  }

  ghost predicate PairwiseDisjoint(rs: seq<Range>) {
    forall i, j :: 0 <= i < |rs| && 0 <= j < |rs| && i != j ==> Apart(rs[i], rs[j])
  }

  // ------------------------------------------------- what an encoding holds

  ghost predicate IsEnd(rs: seq<Range>, top: nat, x: nat) {
    exists j :: 0 <= j < |rs| && EndKey(rs[j], top) == x
  }

  lemma {:induction false} EncodedStart(rs: seq<Range>, top: nat, x: nat)
    ensures Elem(Num(x), false) in Encode(rs, top) <==> IsStart(rs, x)
  {
    if rs != [] {
      var n := |rs| - 1;
      var init := rs[..n];
      EncodedStart(init, top, x);
      assert IsStart(rs, x) <==> IsStart(init, x) || rs[n].lo == x by {
        if k :| 0 <= k < |init| && init[k].lo == x {
          assert rs[k].lo == x;
        }
        if k :| 0 <= k < |rs| && rs[k].lo == x {
          if k < n { assert init[k].lo == x; }
        }
      }
    }
  }

  lemma {:induction false} EncodedEnd(rs: seq<Range>, top: nat, x: nat)
    ensures Elem(Num(x), true) in Encode(rs, top) <==> IsEnd(rs, top, x)
  {
    if rs != [] {
      var n := |rs| - 1;
      var init := rs[..n];
      EncodedEnd(init, top, x);
      assert IsEnd(rs, top, x) <==> IsEnd(init, top, x) || EndKey(rs[n], top) == x by {
        if k :| 0 <= k < |init| && EndKey(init[k], top) == x {
          assert EndKey(rs[k], top) == x;
        }
        if k :| 0 <= k < |rs| && EndKey(rs[k], top) == x {
          if k < n { assert EndKey(init[k], top) == x; }
        }
      }
    }
  }

  /** The set read through its boundary elements, in terms of the ranges. */
  ghost predicate OpenAt(rs: seq<Range>, top: nat, s: nat, x: nat) {
    && IsStart(rs, s) && s <= x
    && forall j :: 0 <= j < |rs| && s < EndKey(rs[j], top) ==> x < EndKey(rs[j], top)
  }

  lemma CoversIsOpen(rs: seq<Range>, top: nat, x: nat)
    ensures Covers(Elems(Encode(rs, top)), x) <==> exists s: nat :: OpenAt(rs, top, s, x)
  {
    var es := Elems(Encode(rs, top));
    forall s: nat ensures OpenedAt(es, s, x) <==> OpenAt(rs, top, s, x) {
      EncodedStart(rs, top, s);
      if OpenedAt(es, s, x) {
        forall j | 0 <= j < |rs| && s < EndKey(rs[j], top) ensures x < EndKey(rs[j], top) {
          assert IsEnd(rs, top, EndKey(rs[j], top));
          EncodedEnd(rs, top, EndKey(rs[j], top));
        }
      }
      if OpenAt(rs, top, s, x) {
        forall e: nat | Elem(Num(e), true) in es && s < e ensures x < e {
          EncodedEnd(rs, top, e);
        }
      }
    }
  }

  /** An encoded set never matches more than its ranges. */
  lemma EncodingSound(rs: seq<Range>, top: nat, x: nat)
    requires AllWithin(rs, top) && x < top
    requires Covers(Elems(Encode(rs, top)), x)
    ensures InSome(rs, x)
  {
    CoversIsOpen(rs, top, x);
    var s: nat :| OpenAt(rs, top, s, x);
    var k :| 0 <= k < |rs| && rs[k].lo == s;
    assert Within(rs[k], top);
    assert Holds(rs[k], x);
  }

  lemma {:induction false} LargestStart(rs: seq<Range>, x: nat) returns (s: nat)
    requires InSome(rs, x)
    ensures IsStart(rs, s) && s <= x
    ensures forall k :: 0 <= k < |rs| && rs[k].lo <= x ==> rs[k].lo <= s
  {
    var i :| 0 <= i < |rs| && Holds(rs[i], x);
    s := rs[i].lo;
    for n := 0 to |rs|
      invariant IsStart(rs, s) && s <= x
      invariant forall k :: 0 <= k < n && rs[k].lo <= x ==> rs[k].lo <= s
    {
      if s < rs[n].lo <= x {
        s := rs[n].lo;
      }
    }
  }

  lemma EncodingComplete(rs: seq<Range>, top: nat, x: nat)
    requires AllWithin(rs, top) && NoInnerEnd(rs, top) && x < top && InSome(rs, x)
    ensures Covers(Elems(Encode(rs, top)), x)
  {
    var s := LargestStart(rs, x);
    var i :| 0 <= i < |rs| && Holds(rs[i], x);
    forall j | 0 <= j < |rs| && s < EndKey(rs[j], top) ensures x < EndKey(rs[j], top) {
      var e := EndKey(rs[j], top);
      assert Within(rs[j], top);
      if e <= x {
        assert Holds(rs[i], e);
      }
    }
    assert OpenAt(rs, top, s, x);
    CoversIsOpen(rs, top, x);
  }

  /** The encoding is exact for every point if and only if no range ends inside
      the union without another range starting there. */
  lemma EncodingExact(rs: seq<Range>, top: nat)
    requires AllWithin(rs, top)
    ensures (forall x: nat :: x < top ==> (Covers(Elems(Encode(rs, top)), x) <==> InSome(rs, x)))
            <==> NoInnerEnd(rs, top)
  {
    var es := Elems(Encode(rs, top));
    if NoInnerEnd(rs, top) {
      forall x: nat | x < top ensures Covers(es, x) <==> InSome(rs, x) {
        if Covers(es, x) { EncodingSound(rs, top, x); }
        if InSome(rs, x) { EncodingComplete(rs, top, x); }
      }
    } else {
      var j :| 0 <= j < |rs| && rs[j].hi + 1 < top && InSome(rs, rs[j].hi + 1) && !IsStart(rs, rs[j].hi + 1);
      var x := rs[j].hi + 1;
      CoversIsOpen(rs, top, x);
      assert EndKey(rs[j], top) == x;
      forall s: nat ensures !OpenAt(rs, top, s, x) {
      }
      assert !Covers(es, x);
    }
  }

  lemma DisjointNoInnerEnd(rs: seq<Range>, top: nat)
    requires AllWithin(rs, top) && PairwiseDisjoint(rs)
    ensures NoInnerEnd(rs, top)
  {
    forall j | 0 <= j < |rs| && rs[j].hi + 1 < top && InSome(rs, rs[j].hi + 1)
      ensures IsStart(rs, rs[j].hi + 1)
    {
      var k :| 0 <= k < |rs| && Holds(rs[k], rs[j].hi + 1);
      assert Within(rs[j], top) && Within(rs[k], top);
      assert Apart(rs[j], rs[k]);
      assert rs[k].lo == rs[j].hi + 1;
    }
  }

  /** A leading end element at zero closes nothing. */
  lemma MarkerNeutral(es: set<Elem>, x: nat)
    ensures Covers(es + {Elem(Num(0), true)}, x) <==> Covers(es, x)
  {
    var with := es + {Elem(Num(0), true)};
    forall s: nat ensures OpenedAt(with, s, x) <==> OpenedAt(es, s, x) {
      if OpenedAt(with, s, x) {
        forall e: nat | Elem(Num(e), true) in es && s < e ensures x < e {
          assert Elem(Num(e), true) in with;
        }
      }
    }
  }

  // -------------------------------------------------------------- prefixes

  function Pow2(n: nat): (p: nat)
    ensures p >= 1
  {
    if n == 0 then 1 else 2 * Pow2(n - 1)
  }

  function Width(v6: bool): nat {
    if v6 then 128 else 32
  }

  /** The number of addresses of a family. */
  function Top(v6: bool): nat {
    Pow2(Width(v6))
  }

  predicate ValidPrefix(p: Prefix) {
    p.bits <= Width(p.v6) && p.addr < Top(p.v6)
  }

  /** The number of bits after the prefix. */
  function HostBits(p: Prefix): nat {
    if p.bits <= Width(p.v6) then Width(p.v6) - p.bits else 0
  }

  /** a and b agree once their k low bits are dropped. */
  predicate SameLead(a: nat, b: nat, k: nat)
    decreases k
  {
    if k == 0 then a == b else SameLead(a / 2, b / 2, k - 1)
  }

  /** a with its k low bits cleared (Prefix.Masked). */
  function Floor(a: nat, k: nat): nat
    decreases k
  {
    if k == 0 then a else 2 * Floor(a / 2, k - 1)
  }

  /** a with its k low bits set (netipx.PrefixLastIP). */
  function Ceil(a: nat, k: nat): nat
    decreases k
  {
    if k == 0 then a else 2 * Ceil(a / 2, k - 1) + 1
  }

  /** A prefix contains the addresses that share its leading bits
      (section 3.1 of RFC 4632, section 2.3 of RFC 4291). */
  predicate Contains(p: Prefix, a: nat) {
    SameLead(a, p.addr, HostBits(p))
  }

  function RangeOf(p: Prefix): Range {
    Range(Floor(p.addr, HostBits(p)), Ceil(p.addr, HostBits(p)))
  }

  lemma {:induction false} SameLeadIsRange(a: nat, b: nat, k: nat)
    ensures SameLead(a, b, k) <==> Floor(b, k) <= a <= Ceil(b, k)
    decreases k
  {
    if k > 0 {
      SameLeadIsRange(a / 2, b / 2, k - 1);
    }
  }

  lemma ContainsIsRange(p: Prefix, a: nat)
    ensures Contains(p, a) <==> Holds(RangeOf(p), a)
  {
    SameLeadIsRange(a, p.addr, HostBits(p));
  }

  lemma {:induction false} TimesGrows(p: nat, m: nat, n: nat)
    requires m <= n
    ensures p * m <= p * n
    decreases n
  {
    if m < n {
      TimesGrows(p, m, n - 1);
      assert p * n == p * (n - 1) + p;
    }
  }

  lemma QuotientIs(x: nat, p: nat, q: nat)
    requires p > 0 && p * q <= x < p * q + p
    ensures x / p == q
  {
    var y := x / p;
    assert p * y <= x < p * y + p;
    if y < q {
      TimesGrows(p, y + 1, q);
    } else if q < y {
      TimesGrows(p, q + 1, y);
    }
  }

  /** a with its k low bits cleared is the first multiple of two to the k at or
      below a, and a with these bits set is the last number before the next. */
  lemma {:induction false} FloorIsMultiple(a: nat, k: nat) returns (q: nat)
    ensures Floor(a, k) == Pow2(k) * q && Ceil(a, k) == Pow2(k) * q + Pow2(k) - 1
    ensures Floor(a, k) <= a <= Ceil(a, k)
    decreases k
  {
    if k == 0 {
      q := a;
    } else {
      q := FloorIsMultiple(a / 2, k - 1);
      Doubled(Pow2(k - 1), q);
    }
  }

  lemma Doubled(p: nat, q: nat)
    ensures 2 * (p * q) == (2 * p) * q
  {
  }

  /** Dropping k low bits is dividing by two to the k. */
  lemma SameLeadIsQuotient(a: nat, b: nat, k: nat)
    ensures SameLead(a, b, k) <==> a / Pow2(k) == b / Pow2(k)
  {
    hide Pow2, SameLead, Floor, Ceil;
    SameLeadIsRange(a, b, k);
    var q := FloorIsMultiple(b, k);
    QuotientIs(b, Pow2(k), q);
    if SameLead(a, b, k) {
      QuotientIs(a, Pow2(k), q);
    } else if a / Pow2(k) == q {
      QuotientBounds(a, Pow2(k));
    }
  }

  lemma QuotientBounds(x: nat, p: nat)
    requires p > 0
    ensures p * (x / p) <= x < p * (x / p) + p
  {
  }

  /** The powers of two that count addresses. */
  lemma AddressCounts()
    ensures Top(false) == 4294967296 && Top(true) == 340282366920938463463374607431768211456
  {
    assert Pow2(8) == 256;
    assert Pow2(16) == 65536;
    PowAdds(16, 16);
    PowAdds(32, 32);
    PowAdds(64, 64);
  }

  lemma {:induction false} PowAdds(a: nat, b: nat)
    ensures Pow2(a + b) == Pow2(a) * Pow2(b)
  {
    if a > 0 {
      PowAdds(a - 1, b);
    }
  }

  /** A prefix of n bits spans two to the 32 - n addresses, or 128 - n, from the
      first multiple of that number at or below its address. */
  lemma PrefixSpan(p: Prefix)
    requires ValidPrefix(p)
    ensures var size := Pow2((if p.v6 then 128 else 32) - p.bits);
            && RangeOf(p).hi - RangeOf(p).lo + 1 == size && RangeOf(p).lo == size * (p.addr / size)
            && RangeOf(p).lo <= p.addr <= RangeOf(p).hi
  {
    hide Pow2, Floor, Ceil;
    var q := FloorIsMultiple(p.addr, HostBits(p));
    QuotientIs(p.addr, Pow2(HostBits(p)), q);
  }

  /** It contains an address exactly if both have the same quotient by that
      number. */
  lemma ContainsIsQuotient(p: Prefix, a: nat)
    requires ValidPrefix(p)
    ensures var size := Pow2((if p.v6 then 128 else 32) - p.bits); Contains(p, a) <==> a / size == p.addr / size
  {
    SameLeadIsQuotient(a, p.addr, HostBits(p));
  }

  lemma {:induction false} CeilBound(a: nat, k: nat, w: nat)
    requires a < Pow2(w) && k <= w
    ensures Floor(a, k) <= Ceil(a, k) < Pow2(w)
    decreases k
  {
    if k > 0 {
      CeilBound(a / 2, k - 1, w - 1);
    }
  }

  /** The range of a prefix lies within the address space. */
  lemma PrefixWithin(p: Prefix)
    requires ValidPrefix(p)
    ensures Within(RangeOf(p), Top(p.v6))
  {
    CeilBound(p.addr, HostBits(p), Width(p.v6));
  }

  lemma {:induction false} SameLeadGrows(a: nat, b: nat, k: nat, l: nat)
    requires SameLead(a, b, k) && k <= l
    ensures SameLead(a, b, l)
    decreases l
  {
    if k > 0 {
      SameLeadGrows(a / 2, b / 2, k - 1, l - 1);
    } else if l > 0 {
      SameLeadGrows(a / 2, b / 2, 0, l - 1);
    }
  }

  lemma {:induction false} SameLeadEuclid(a: nat, b: nat, c: nat, k: nat)
    requires SameLead(a, b, k)
    ensures SameLead(a, c, k) <==> SameLead(b, c, k)
    decreases k
  {
    if k > 0 {
      SameLeadEuclid(a / 2, b / 2, c / 2, k - 1);
    }
  }

  /** Two prefixes of one family are nested or disjoint. */
  lemma NestedOrDisjoint(p: Prefix, q: Prefix)
    requires p.v6 == q.v6 && q.bits <= p.bits <= Width(p.v6)
    ensures (forall a: nat :: Contains(p, a) ==> Contains(q, a))
         || (forall a: nat :: Contains(p, a) ==> !Contains(q, a))
  {
    forall a: nat | Contains(p, a)
      ensures Contains(q, a) <==> Contains(q, p.addr)
    {
      SameLeadGrows(a, p.addr, HostBits(p), HostBits(q));
      SameLeadEuclid(a, p.addr, q.addr, HostBits(q));
    }
  }

  /** `convertPrefixToSet`: the address after the last one of a prefix at the
      top of the space does not exist and becomes the all-zero address. */
  function ConvertPrefix(p: Prefix): (es: seq<Elem>) {
    EncodeRange(RangeOf(p), Top(p.v6))
  }

  function MARKER(): Elem { Elem(Num(0), true) }

  /** The elements of one family for a list of prefixes; the very first prefix
      of the list is preceded by the zero end marker. */
  function PrefixElems(ps: seq<Prefix>, v6: bool): seq<Elem> {
    if ps == [] then [] else
    var n := |ps| - 1;
    PrefixElems(ps[..n], v6) +
    if ps[n].v6 != v6 then [] else (if n == 0 then [MARKER()] else []) + ConvertPrefix(ps[n])
  }

  function FamilyRanges(ps: seq<Prefix>, v6: bool): seq<Range> {
    if ps == [] then [] else
    var n := |ps| - 1;
    FamilyRanges(ps[..n], v6) + if ps[n].v6 == v6 then [RangeOf(ps[n])] else []
  }

  type GoodPrefix = p: Prefix | ValidPrefix(p) witness Prefix(false, 0, 0)

  /** A CIDR string of the configuration or of a policy, after parsing. */
  datatype Cidr = Parsed(prefix: GoodPrefix) | Malformed(text: string)

  predicate AllParsed(cs: seq<Cidr>) {
    forall i :: 0 <= i < |cs| ==> cs[i].Parsed?
  }

  function Prefixes(cs: seq<Cidr>): (ps: seq<Prefix>)
    requires AllParsed(cs)
    ensures |ps| == |cs| && forall i :: 0 <= i < |cs| ==> ps[i] == cs[i].prefix && ValidPrefix(ps[i])
  {
    seq(|cs|, i requires 0 <= i < |cs| => cs[i].prefix)
  }

  /** `getPrefixesAsSetInterval`: fails on the first malformed prefix. */
  method GetPrefixesAsSetInterval(cs: seq<Cidr>) returns (ok: bool, v4: seq<Elem>, v6: seq<Elem>)
    ensures ok <==> AllParsed(cs)
    ensures ok ==> v4 == PrefixElems(Prefixes(cs), false) && v6 == PrefixElems(Prefixes(cs), true)
  {
    NoPrefixElems();
    hide ConvertPrefix, FamilyRanges, PrefixElems, ValidPrefix;
    v4, v6 := [], [];
    ghost var ps: seq<Prefix> := [];
    for i := 0 to |cs|
      invariant |ps| == i && forall k :: 0 <= k < i ==> cs[k].Parsed? && ps[k] == cs[k].prefix
      invariant v4 == PrefixElems(ps, false) && v6 == PrefixElems(ps, true)
    {
      if cs[i].Malformed? {
        return false, [], [];
      }
      var p := cs[i].prefix;
      PrefixElemsSnoc(ps, p, false);
      PrefixElemsSnoc(ps, p, true);
      ps := ps + [p];
      var marker := if i == 0 then [MARKER()] else [];
      if !p.v6 {
        v4 := v4 + (marker + ConvertPrefix(p));
        assert v6 + [] == v6;
      } else {
        v6 := v6 + (marker + ConvertPrefix(p));
        assert v4 + [] == v4;
      }
    }
    ok := true;
    assert ps == Prefixes(cs);
  }

  lemma NoPrefixElems()
    ensures PrefixElems([], false) == [] && PrefixElems([], true) == []
  {
  }

  lemma PrefixElemsSnoc(ps: seq<Prefix>, p: Prefix, v6: bool)
    ensures PrefixElems(ps + [p], v6) == PrefixElems(ps, v6) +
            if p.v6 != v6 then [] else (if ps == [] then [MARKER()] else []) + ConvertPrefix(p)
    ensures FamilyRanges(ps + [p], v6) == FamilyRanges(ps, v6) + if p.v6 == v6 then [RangeOf(p)] else []
  {
    assert (ps + [p])[..|ps|] == ps;
  }

  lemma EncodeSnoc(rs: seq<Range>, r: Range, top: nat)
    ensures Encode(rs + [r], top) == Encode(rs, top) + EncodeRange(r, top)
  {
    assert (rs + [r])[..|rs|] == rs;
  }

  /** The marker is present when the first prefix of the list is of the family. */
  function Markers(ps: seq<Prefix>, v6: bool): set<Elem> {
    if ps != [] && ps[0].v6 == v6 then {MARKER()} else {}
  }

  lemma {:induction false} PrefixElemsEncode(ps: seq<Prefix>, v6: bool)
    ensures Elems(PrefixElems(ps, v6)) == Elems(Encode(FamilyRanges(ps, v6), Top(v6))) + Markers(ps, v6)
  {
    if ps != [] {
      var n := |ps| - 1;
      var init, p := ps[..n], ps[n];
      assert ps == init + [p];
      PrefixElemsEncode(init, v6);
      MarkersSnoc(init, p, v6);
      if p.v6 == v6 {
        PrefixElemsStep(init, p);
        Shuffle(Elems(Encode(FamilyRanges(init, v6), Top(v6))), Markers(init, v6),
                Elems(ConvertPrefix(p)), if init == [] then {MARKER()} else {});
      } else {
        PrefixElemsSkip(init, p);
      }
    }
  }

  lemma Shuffle(a: set<Elem>, b: set<Elem>, c: set<Elem>, d: set<Elem>)
    ensures ((a + b) + c) + d == (a + c) + (b + d)
  {
  }

  lemma MarkersSnoc(init: seq<Prefix>, p: Prefix, v6: bool)
    ensures Markers(init + [p], v6) == Markers(init, v6) + if init == [] && p.v6 == v6 then {MARKER()} else {}
  {
  }

  lemma PrefixElemsSkip(init: seq<Prefix>, p: Prefix)
    ensures PrefixElems(init + [p], !p.v6) == PrefixElems(init, !p.v6)
    ensures FamilyRanges(init + [p], !p.v6) == FamilyRanges(init, !p.v6)
  {
    PrefixElemsSnoc(init, p, !p.v6);
  }

  lemma PrefixElemsStep(init: seq<Prefix>, p: Prefix)
    ensures Elems(PrefixElems(init + [p], p.v6)) ==
            Elems(PrefixElems(init, p.v6)) + Elems(ConvertPrefix(p)) + if init == [] then {MARKER()} else {}
    ensures Elems(Encode(FamilyRanges(init + [p], p.v6), Top(p.v6))) ==
            Elems(Encode(FamilyRanges(init, p.v6), Top(p.v6))) + Elems(ConvertPrefix(p))
  {
    hide PrefixElems, FamilyRanges, ConvertPrefix, Encode, Elems, Top, RangeOf;
    var v6 := p.v6;
    var marker := if init == [] then [MARKER()] else [];
    PrefixElemsSnoc(init, p, v6);
    RangesStep(init, p);
    ElemsConcat(PrefixElems(init, v6), marker + ConvertPrefix(p));
    ElemsConcat(marker, ConvertPrefix(p));
    MarkerElems(init);
  }

  lemma MarkerElems(init: seq<Prefix>)
    ensures Elems(if init == [] then [MARKER()] else []) == if init == [] then {MARKER()} else {}
  {
  }

  lemma RangesStep(init: seq<Prefix>, p: Prefix)
    ensures Elems(Encode(FamilyRanges(init + [p], p.v6), Top(p.v6))) ==
            Elems(Encode(FamilyRanges(init, p.v6), Top(p.v6))) + Elems(ConvertPrefix(p))
  {
    hide PrefixElems, FamilyRanges, Encode, Elems, Top, RangeOf;
    PrefixElemsSnoc(init, p, p.v6);
    EncodeSnoc(FamilyRanges(init, p.v6), RangeOf(p), Top(p.v6));
    ElemsConcat(Encode(FamilyRanges(init, p.v6), Top(p.v6)), ConvertPrefix(p));
  }

  lemma {:induction false} PrefixElemsEmpty(ps: seq<Prefix>, v6: bool)
    ensures PrefixElems(ps, v6) == [] <==> FamilyRanges(ps, v6) == []
  {
    if ps != [] {
      PrefixElemsEmpty(ps[..|ps| - 1], v6);
    }
  }

  lemma {:induction false} FamilyRangesWithin(ps: seq<Prefix>, v6: bool)
    requires forall i :: 0 <= i < |ps| ==> ValidPrefix(ps[i])
    ensures AllWithin(FamilyRanges(ps, v6), Top(v6))
  {
    if ps != [] {
      var n := |ps| - 1;
      assert forall i :: 0 <= i < n ==> ps[..n][i] == ps[i];
      FamilyRangesWithin(ps[..n], v6);
      PrefixWithin(ps[n]);
    }
  }

  lemma {:induction false} FamilyRangesUnion(ps: seq<Prefix>, v6: bool, a: nat)
    ensures InSome(FamilyRanges(ps, v6), a) <==> InPrefixes(ps, v6, a)
  {
    if ps != [] {
      var n := |ps| - 1;
      var init, p := ps[..n], ps[n];
      var rs, all := FamilyRanges(init, v6), FamilyRanges(ps, v6);
      FamilyRangesUnion(init, v6, a);
      ContainsIsRange(p, a);
      assert InPrefixes(ps, v6, a) <==> InPrefixes(init, v6, a) || (p.v6 == v6 && Contains(p, a)) by {
        if k :| 0 <= k < |ps| && ps[k].v6 == v6 && Contains(ps[k], a) {
          if k < n { assert Contains(init[k], a); }
        }
        if k :| 0 <= k < n && init[k].v6 == v6 && Contains(init[k], a) {
          assert Contains(ps[k], a);
        }
      }
      assert InSome(all, a) <==> InSome(rs, a) || (p.v6 == v6 && Holds(RangeOf(p), a)) by {
        if k :| 0 <= k < |all| && Holds(all[k], a) {
          if k < |rs| { assert Holds(rs[k], a); }
        }
        if k :| 0 <= k < |rs| && Holds(rs[k], a) {
          assert Holds(all[k], a);
        }
        if p.v6 == v6 { assert all[|rs|] == RangeOf(p); }
      }
    }
  }

  ghost predicate InPrefixes(ps: seq<Prefix>, v6: bool, a: nat) {
    exists k :: 0 <= k < |ps| && ps[k].v6 == v6 && Contains(ps[k], a)
  }

  /** The element set of a prefix list is exact for one family if and only if no
      prefix of that family ends inside the union without another starting there. */
  lemma PrefixEncodingExact(ps: seq<Prefix>, v6: bool)
    requires forall i :: 0 <= i < |ps| ==> ValidPrefix(ps[i])
    ensures (forall a: nat :: a < Top(v6) ==> (Covers(Elems(PrefixElems(ps, v6)), a) <==> InPrefixes(ps, v6, a)))
            <==> NoInnerEnd(FamilyRanges(ps, v6), Top(v6))
  {
    var rs := FamilyRanges(ps, v6);
    var es, enc := Elems(PrefixElems(ps, v6)), Elems(Encode(rs, Top(v6)));
    FamilyRangesWithin(ps, v6);
    PrefixElemsEncode(ps, v6);
    EncodingExact(rs, Top(v6));
    forall a: nat ensures (Covers(es, a) <==> Covers(enc, a)) && (InSome(rs, a) <==> InPrefixes(ps, v6, a)) {
      FamilyRangesUnion(ps, v6, a);
      MarkerNeutral(enc, a);
      assert es == enc || es == enc + {MARKER()};
    }
  }
}
