/** Incremental update of the elements of an existing set.  Elements are
    compared by key alone; the interval-end flag takes no part. */
module Elements {
  import opened Machine
  import opened Intervals

  ghost predicate KeyIn(k: Val, es: set<Elem>) {
    exists e :: e in es && e.key == k
  }

  /** The elements of a whose key does not occur in b. */
  ghost function Missing(a: set<Elem>, b: set<Elem>): set<Elem> {
    set e | e in a && !KeyIn(e.key, b)
  }

  predicate IsPresent(e: Elem, es: seq<Elem>) {
    exists i :: 0 <= i < |es| && es[i].key == e.key
  }

  lemma IsPresentKeyIn(e: Elem, es: seq<Elem>)
    ensures IsPresent(e, es) <==> KeyIn(e.key, Elems(es))
  {
    if f :| f in Elems(es) && f.key == e.key {
      var i :| 0 <= i < |es| && es[i] == f;
    }
    if i :| 0 <= i < |es| && es[i].key == e.key {
      assert es[i] in Elems(es);
    }
  }

  method FindNonCommon(a: seq<Elem>, b: seq<Elem>) returns (r: seq<Elem>)
    ensures Elems(r) == Missing(Elems(a), Elems(b))
    ensures |r| <= |a|
  {
    r := [];
    for i := 0 to |a|
      invariant |r| <= i
      invariant Elems(r) == Missing(Elems(a[..i]), Elems(b))
    {
      IsPresentKeyIn(a[i], b);
      ghost var before := r;
      assert a[..i + 1] == a[..i] + [a[i]];
      ElemsConcat(a[..i], [a[i]]);
      if !IsPresent(a[i], b) {
        r := r + [a[i]];
        ElemsConcat(before, [a[i]]);
      }
    }
    assert a[..|a|] == a;
  }

  method ProcessElements(want: seq<Elem>, have: seq<Elem>) returns (toAdd: seq<Elem>, toDel: seq<Elem>)
    ensures Elems(toAdd) == Missing(Elems(want), Elems(have))
    ensures Elems(toDel) == Missing(Elems(have), Elems(want))
  {
    toAdd := FindNonCommon(want, have);
    toDel := FindNonCommon(have, want);
  }

  /** The set after the queued deletions and additions. */
  ghost function Updated(have: set<Elem>, want: set<Elem>): set<Elem> {
    (have - Missing(have, want)) + Missing(want, have)
  }

  /** The keys always converge to the wanted ones. */
  lemma KeysConverge(have: set<Elem>, want: set<Elem>, k: Val)
    ensures KeyIn(k, Updated(have, want)) <==> KeyIn(k, want)
  {
    var u := Updated(have, want);
    if e :| e in u && e.key == k {
      if e in have {
        assert KeyIn(e.key, want);
      }
    }
    if e :| e in want && e.key == k {
      if KeyIn(k, have) {
        var f :| f in have && f.key == k;
        assert f in u;
      } else {
        assert e in u;
      }
    }
  }

  /** Keys on both sides carry the same interval-end flags on both sides. */
  ghost predicate FlagsAgree(have: set<Elem>, want: set<Elem>) {
    && (forall e :: e in have && KeyIn(e.key, want) ==> e in want)
    && (forall e :: e in want && KeyIn(e.key, have) ==> e in have)
  }

  /** The elements converge, flags included, exactly when the flags agree. */
  lemma UpdateExact(have: set<Elem>, want: set<Elem>)
    ensures Updated(have, want) == want <==> FlagsAgree(have, want)
  {
    var u := Updated(have, want);
    if FlagsAgree(have, want) {
      assert forall e :: e in u ==> e in want;
      assert forall e :: e in want ==> e in u;
    }
    if u == want {
      forall e | e in have && KeyIn(e.key, want) ensures e in want {
        assert e in u;
      }
      forall e | e in want && KeyIn(e.key, have) ensures e in have {
        assert e in u;
      }
    }
  }

  /** The boundaries of the port ranges 80 and 80..81, the latter as two entries. */
  lemma AdjacentElems()
    ensures Elems(Encode([Range(80, 80)], 65536)) == {Elem(Num(80), false), Elem(Num(81), true)}
    ensures Elems(Encode([Range(80, 80), Range(81, 81)], 65536)) ==
            {Elem(Num(80), false), Elem(Num(81), true), Elem(Num(81), false), Elem(Num(82), true)}
  {
    var one, two := [Range(80, 80)], [Range(80, 80), Range(81, 81)];
    EncodeSnoc([], one[0], 65536);
    EncodeSnoc(one, two[1], 65536);
    assert [] + [one[0]] == one && one + [two[1]] == two;
    assert Encode(one, 65536) == [Elem(Num(80), false), Elem(Num(81), true)];
    assert Encode(two, 65536) == Encode(one, 65536) + [Elem(Num(81), false), Elem(Num(82), true)];
  }

  /** A changed flag is not noticed: extending the port range 80 to 80..81 by an
      adjacent entry loses the start at 81. */
  lemma AdjacentRangeLost()
    ensures var have := Elems(Encode([Range(80, 80)], 65536));
            var want := Elems(Encode([Range(80, 80), Range(81, 81)], 65536));
            Covers(want, 81) && !Covers(Updated(have, want), 81)
  {
    AdjacentElems();
    hide Encode;
    var have, want := Elems(Encode([Range(80, 80)], 65536)), Elems(Encode([Range(80, 80), Range(81, 81)], 65536));
    assert OpenedAt(want, 81, 81);
    var u := Updated(have, want);
    assert KeyIn(Num(81), have) && Elem(Num(81), true) in u && Elem(Num(81), false) !in u;
    forall s: nat ensures !OpenedAt(u, s, 81) {
    }
  }

  /** And the other way round it opens what neither list names: dropping the
      adjacent entry again deletes the end at 82 and leaves the start at 81. */
  lemma DroppedRangeOpens(x: nat)
    requires x > 81
    ensures var have := Elems(Encode([Range(80, 80), Range(81, 81)], 65536));
            var want := Elems(Encode([Range(80, 80)], 65536));
            !Covers(have, x) && !Covers(want, x) && Covers(Updated(have, want), x)
  {
    AdjacentElems();
    hide Encode;
    var have, want := Elems(Encode([Range(80, 80), Range(81, 81)], 65536)), Elems(Encode([Range(80, 80)], 65536));
    var u := Updated(have, want);
    assert Elem(Num(82), true) in have && Elem(Num(81), true) in want;
    forall s: nat ensures !OpenedAt(have, s, x) && !OpenedAt(want, s, x) {
    }
    assert KeyIn(Num(81), want) && Elem(Num(81), false) in u;
    assert !KeyIn(Num(82), want) && Elem(Num(82), true) !in u;
    assert OpenedAt(u, 81, x);
  }

  lemma PlainFlagsAgree(have: set<Elem>, want: set<Elem>)
    requires forall e :: e in have || e in want ==> !e.end
    ensures FlagsAgree(have, want)
  {
  }

  lemma SameFlagsAgree(es: set<Elem>)
    ensures FlagsAgree(es, es) && Missing(es, es) == {}
  {
  }

  lemma UpdateTwice(have: set<Elem>, want: set<Elem>)
    ensures (Updated(have, want) - Missing(have, want)) + Missing(want, have) == Updated(have, want)
  {
  }

  lemma NothingMissing(have: set<Elem>, want: set<Elem>)
    ensures Missing(Updated(have, want), want) == {} && Missing(want, Updated(have, want)) == {}
  {
    forall e | e in Updated(have, want) ensures KeyIn(e.key, want) {
      assert KeyIn(e.key, Updated(have, want));
      KeysConverge(have, want, e.key);
    }
    forall e | e in want ensures KeyIn(e.key, Updated(have, want)) {
      assert KeyIn(e.key, want);
      KeysConverge(have, want, e.key);
    }
  }
}
