/** Texts: order, splitting, case folding. */
module Texts {

  // ------------------------------------------------------------------- order

  /** a comes before b or equals it, character by character. */
  predicate AtMost(a: string, b: string) {
    a == "" || (b != "" && (a[0] < b[0] || (a[0] == b[0] && AtMost(a[1..], b[1..]))))
  }

  lemma {:induction false} AtMostTotal(a: string, b: string)
    ensures AtMost(a, b) || AtMost(b, a)
  {
    if a != "" && b != "" && a[0] == b[0] {
      AtMostTotal(a[1..], b[1..]);
    }
  }

  lemma {:induction false} AtMostAntisymmetric(a: string, b: string)
    requires AtMost(a, b) && AtMost(b, a)
    ensures a == b
  {
    if a != "" && b != "" {
      AtMostAntisymmetric(a[1..], b[1..]);
      assert a == [a[0]] + a[1..] && b == [b[0]] + b[1..];
    }
  }

  lemma {:induction false} AtMostTransitive(a: string, b: string, c: string)
    requires AtMost(a, b) && AtMost(b, c)
    ensures AtMost(a, c)
  {
    if a != "" && a[0] == b[0] && b[0] == c[0] {
      AtMostTransitive(a[1..], b[1..], c[1..]);
    }
  }

  /** a is b cut short, or has the smaller character where they first differ. */
  ghost predicate Before(a: string, b: string) {
    exists i :: 0 <= i <= |a| && i <= |b| && a[..i] == b[..i] && (i == |a| || (i < |b| && a[i] < b[i]))
  }

  lemma {:induction false} AtMostIsBefore(a: string, b: string)
    ensures AtMost(a, b) <==> Before(a, b)
  {
    if a == "" {
      assert a[..0] == b[..0];
    } else if b != "" {
      AtMostIsBefore(a[1..], b[1..]);
      if a[0] == b[0] {
        if Before(a[1..], b[1..]) {
          var i :| 0 <= i <= |a[1..]| && i <= |b[1..]| && a[1..][..i] == b[1..][..i] &&
                   (i == |a[1..]| || (i < |b[1..]| && a[1..][i] < b[1..][i]));
          assert a[..i + 1] == [a[0]] + a[1..][..i] && b[..i + 1] == [b[0]] + b[1..][..i];
        }
        if Before(a, b) {
          var i :| 0 <= i <= |a| && i <= |b| && a[..i] == b[..i] && (i == |a| || (i < |b| && a[i] < b[i]));
          assert a[1..][..i - 1] == a[..i][1..] && b[1..][..i - 1] == b[..i][1..];
        }
      } else if a[0] < b[0] {
        assert a[..0] == b[..0];
      }
    }
  }

  lemma {:induction false} AtMostBehind(p: string, a: string, b: string)
    ensures AtMost(p + a, p + b) <==> AtMost(a, b)
  {
    if p == "" {
      assert p + a == a && p + b == b;
    } else {
      AtMostBehind(p[1..], a, b);
      assert (p + a)[1..] == p[1..] + a && (p + b)[1..] == p[1..] + b;
    }
  }

  // --------------------------------------------------------------- splitting

  /** The text without spaces. */
  function NoSpaces(s: string): (r: string)
    ensures ' ' !in r
  {
    if s == "" then "" else NoSpaces(s[..|s| - 1]) + if s[|s| - 1] == ' ' then "" else [s[|s| - 1]]
  }

  lemma Regroup(a: string, b: string, c: string)
    ensures (a + b) + c == a + (b + c)
  {
  }

  lemma {:induction false} NoSpacesConcat(a: string, b: string)
    ensures NoSpaces(a + b) == NoSpaces(a) + NoSpaces(b)
  {
    if b == "" {
      assert a + b == a;
    } else {
      hide NoSpaces;
      var init, c := b[..|b| - 1], b[|b| - 1];
      NoSpacesConcat(a, init);
      NoSpacesSnoc(a + init, c);
      NoSpacesSnoc(init, c);
      Regroup(a, init, [c]);
      Regroup(NoSpaces(a), NoSpaces(init), if c == ' ' then "" else [c]);
      assert b == init + [c];
    }
  }

  /** Spaces go, everything else stays in order. */
  lemma SpacesGone(a: string, b: string)
    ensures NoSpaces(a + " " + b) == NoSpaces(a) + NoSpaces(b) && NoSpaces(a + b) == NoSpaces(a) + NoSpaces(b)
    ensures ' ' !in a ==> NoSpaces(a) == a
  {
    hide NoSpaces;
    NoSpacesConcat(a, b);
    NoSpacesConcat(a + " ", b);
    NoSpacesSnoc(a, ' ');
    NoSpacesKept(a);
  }

  lemma NoSpacesSnoc(s: string, c: char)
    ensures NoSpaces(s + [c]) == NoSpaces(s) + if c == ' ' then "" else [c]
  {
    assert (s + [c])[..|s|] == s;
  }

  lemma {:induction false} NoSpacesKept(a: string)
    ensures ' ' !in a ==> NoSpaces(a) == a
  {
    if a != "" {
      NoSpacesKept(a[..|a| - 1]);
      assert a == a[..|a| - 1] + [a[|a| - 1]];
    }
  }

  /** The parts between separators; always at least one. */
  function Split(s: string, sep: char): (parts: seq<string>)
    ensures |parts| >= 1
  {
    if s == "" then [""]
    else
      var parts, c := Split(s[..|s| - 1], sep), s[|s| - 1];
      if c == sep then parts + [""] else parts[..|parts| - 1] + [parts[|parts| - 1] + [c]]
  }

  function Join(parts: seq<string>, sep: char): string
    requires |parts| >= 1
  {
    if |parts| == 1 then parts[0] else Join(parts[..|parts| - 1], sep) + [sep] + parts[|parts| - 1]
  }

  lemma JoinLast(parts: seq<string>, sep: char, c: char)
    requires |parts| >= 1
    ensures Join(parts[..|parts| - 1] + [parts[|parts| - 1] + [c]], sep) == Join(parts, sep) + [c]
  {
    var n := |parts| - 1;
    var init, last := parts[..n], parts[n];
    var longer := init + [last + [c]];
    if n > 0 {
      assert longer[..n] == init;
      assert Join(init, sep) + [sep] + (last + [c]) == (Join(init, sep) + [sep] + last) + [c];
    }
  }

  predicate NoneHas(parts: seq<string>, sep: char) {
    forall i :: 0 <= i < |parts| ==> sep !in parts[i]
  }

  lemma {:induction false} SplitClean(s: string, sep: char)
    ensures NoneHas(Split(s, sep), sep)
  {
    if s != "" {
      SplitClean(s[..|s| - 1], sep);
    }
  }

  lemma {:induction false} SplitWhole(s: string, sep: char)
    ensures Join(Split(s, sep), sep) == s
  {
    if s != "" {
      var init, c := s[..|s| - 1], s[|s| - 1];
      var parts := Split(init, sep);
      SplitWhole(init, sep);
      assert s == init + [c];
      hide Split;
      if c == sep {
        assert (parts + [""])[..|parts|] == parts;
        assert Join(parts + [""], sep) == Join(parts, sep) + [sep] + "";
      } else {
        JoinLast(parts, sep, c);
      }
    }
  }

  /** Splitting loses nothing and leaves no separator inside a part. */
  lemma SplitJoin(s: string, sep: char)
    ensures Join(Split(s, sep), sep) == s && NoneHas(Split(s, sep), sep)
  {
    SplitWhole(s, sep);
    SplitClean(s, sep);
  }

  /** x is the text between two separators next to each other, or an end. */
  ghost predicate Between(s: string, sep: char, x: string) {
    exists i, j :: 0 <= i <= j <= |s| && Piece(s, sep, i, j) && x == s[i..j]
  }

  predicate Piece(s: string, sep: char, i: int, j: int)
    requires 0 <= i <= j <= |s|
  {
    (i == 0 || s[i - 1] == sep) && (j == |s| || s[j] == sep) && sep !in s[i..j]
  }

  /** The last part starts at i, and the parts before it are those of the text in
      front of the separator there. */
  ghost predicate LastAt(s: string, sep: char, parts: seq<string>, i: nat) {
    && i <= |s| && Piece(s, sep, i, |s|) && parts != [] && parts[|parts| - 1] == s[i..]
    && if i == 0 then |parts| == 1 else parts[..|parts| - 1] == Split(s[..i - 1], sep)
  }

  lemma LastLonger(s: string, sep: char, parts: seq<string>, i: nat, c: char)
    requires LastAt(s, sep, parts, i) && c != sep
    ensures LastAt(s + [c], sep, parts[..|parts| - 1] + [parts[|parts| - 1] + [c]], i)
  {
    hide Split;
    var t, all := s + [c], parts[..|parts| - 1] + [parts[|parts| - 1] + [c]];
    assert t[i..] == s[i..] + [c] && s[i..] == s[i..|s|] && t[i..] == t[i..|t|];
    assert i > 0 ==> t[..i - 1] == s[..i - 1];
    assert all[..|all| - 1] == parts[..|parts| - 1];
  }

  lemma LastNew(s: string, sep: char)
    ensures LastAt(s + [sep], sep, Split(s, sep) + [""], |s| + 1)
  {
    hide Split;
    var t, parts := s + [sep], Split(s, sep);
    assert t[..|s|] == s && (parts + [""])[..|parts|] == parts;
  }

  lemma SplitSnoc(s: string, sep: char, c: char)
    ensures var parts := Split(s, sep);
            Split(s + [c], sep) ==
            if c == sep then parts + [""] else parts[..|parts| - 1] + [parts[|parts| - 1] + [c]]
  {
    assert (s + [c])[..|s|] == s;
  }

  lemma {:induction false} SplitLast(s: string, sep: char) returns (i: nat)
    ensures LastAt(s, sep, Split(s, sep), i)
  {
    if s == "" {
      i := 0;
    } else {
      hide Split, LastAt;
      var init, c := s[..|s| - 1], s[|s| - 1];
      assert init + [c] == s;
      SplitSnoc(init, sep, c);
      if c == sep {
        i := |s|;
        LastNew(init, sep);
      } else {
        i := SplitLast(init, sep);
        LastLonger(init, sep, Split(init, sep), i, c);
      }
    }
  }

  /** The parts are exactly the texts between separators. */
  lemma {:induction false} SplitMembers(s: string, sep: char, x: string)
    ensures x in Split(s, sep) <==> Between(s, sep, x)
    decreases |s|
  {
    hide Split;
    var k := SplitLast(s, sep);
    var parts := Split(s, sep);
    var n := |parts| - 1;
    assert s[k..] == s[k..|s|];
    if k == 0 {
      assert parts == [s[0..|s|]];
      forall i, j | 0 <= i <= j <= |s| && Piece(s, sep, i, j) ensures i == 0 && j == |s| {
        PieceFrom(s, sep, i, j, 0);
      }
    } else {
      var init := s[..k - 1];
      SplitMembers(init, sep, x);
      assert x in parts <==> x in parts[..n] || x == parts[n];
      if Between(init, sep, x) {
        var i, j :| 0 <= i <= j <= |init| && Piece(init, sep, i, j) && x == init[i..j];
        PieceBefore(s, sep, i, j, k - 1);
      }
      if Between(s, sep, x) {
        var i, j :| 0 <= i <= j <= |s| && Piece(s, sep, i, j) && x == s[i..j];
        if i < k {
          PieceEnds(s, sep, i, j, k);
          PieceBefore(s, sep, i, j, k - 1);
        } else {
          PieceFrom(s, sep, i, j, k);
        }
      }
    }
  }

  lemma PieceBefore(s: string, sep: char, i: nat, j: nat, k: nat)
    requires i <= j <= k < |s| && s[k] == sep
    ensures s[..k][i..j] == s[i..j] && (Piece(s[..k], sep, i, j) <==> Piece(s, sep, i, j))
  {
    assert s[..k][i..j] == s[i..j];
  }

  lemma PieceEnds(s: string, sep: char, i: nat, j: nat, k: nat)
    requires i <= j <= |s| && Piece(s, sep, i, j) && i < k <= |s| && s[k - 1] == sep
    ensures j < k
  {
  }

  lemma PieceFrom(s: string, sep: char, i: nat, j: nat, k: nat)
    requires i <= j <= |s| && Piece(s, sep, i, j) && k <= i && Piece(s, sep, k, |s|)
    ensures i == k && j == |s|
  {
  }

  // ------------------------------------------------------------ case folding

  /** Simple case folding of the letters that occur in the policy types. */
  function Folded(c: char): char {
    if 'A' <= c <= 'Z' then c - 'A' + 'a' else if c == '\U{017F}' then 's' else c
  }

  predicate EqualFold(a: string, b: string) {
    |a| == |b| && forall i :: 0 <= i < |a| ==> Folded(a[i]) == Folded(b[i])
  }

  // ----------------------------------------------------------------- sorting

  predicate Ascending(s: seq<string>) {
    forall i, j :: 0 <= i < j < |s| ==> AtMost(s[i], s[j])
  }

  function Place(s: seq<string>, x: string): (r: seq<string>)
    ensures multiset(r) == multiset(s) + multiset{x}
  {
    if s == [] || AtMost(s[|s| - 1], x) then s + [x]
    else
      assert s == s[..|s| - 1] + [s[|s| - 1]];
      Place(s[..|s| - 1], x) + [s[|s| - 1]]
  }

  function Sorted(s: seq<string>): (r: seq<string>)
    ensures multiset(r) == multiset(s)
  {
    if s == [] then []
    else
      assert s == s[..|s| - 1] + [s[|s| - 1]];
      Place(Sorted(s[..|s| - 1]), s[|s| - 1])
  }

  lemma PlaceMembers(s: seq<string>, x: string, i: nat)
    requires i < |Place(s, x)|
    ensures Place(s, x)[i] in s || Place(s, x)[i] == x
  {
    hide Place;
    var y := Place(s, x)[i];
    assert y in multiset(Place(s, x));
    assert y in multiset(s) || y == x;
  }

  lemma AscendingSnoc(s: seq<string>, x: string)
    requires Ascending(s) && forall i :: 0 <= i < |s| ==> AtMost(s[i], x)
    ensures Ascending(s + [x])
  {
    hide AtMost;
  }

  lemma BelowLast(s: seq<string>, y: string)
    requires Ascending(s) && s != [] && y in s[..|s| - 1]
    ensures AtMost(y, s[|s| - 1])
  {
    hide AtMost;
    var j :| 0 <= j < |s| - 1 && s[..|s| - 1][j] == y;
  }

  lemma {:induction false} PlaceAscending(s: seq<string>, x: string)
    requires Ascending(s)
    ensures Ascending(Place(s, x))
  {
    hide AtMost;
    if s == [] {
      AscendingSnoc([], x);
    } else {
      var init, y := s[..|s| - 1], s[|s| - 1];
      if AtMost(y, x) {
        forall i | 0 <= i < |s| ensures AtMost(s[i], x) {
          if i < |s| - 1 {
            AtMostTransitive(s[i], y, x);
          }
        }
        AscendingSnoc(s, x);
      } else {
        AtMostTotal(y, x);
        PlaceAscending(init, x);
        var p := Place(init, x);
        forall i | 0 <= i < |p| ensures AtMost(p[i], y) {
          PlaceMembers(init, x, i);
          if p[i] in init {
            BelowLast(s, p[i]);
          }
        }
        AscendingSnoc(p, y);
      }
    }
  }

  lemma {:induction false} SortedAscending(s: seq<string>)
    ensures Ascending(Sorted(s))
  {
    if s != [] {
      SortedAscending(s[..|s| - 1]);
      PlaceAscending(Sorted(s[..|s| - 1]), s[|s| - 1]);
    }
  }

}
