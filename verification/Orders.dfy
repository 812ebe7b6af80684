/** Orders on lines and stable sorting by insertion, with any comparison. */
module Orders {

  type Less<!T> = (T, T) -> bool

  // ----- orders

  /** A strict weak order on the lines that are `good`. */
  ghost predicate IsWeakOrder<T(!new)>(less: Less<T>, good: T -> bool)
  {
    && (forall a, b {:trigger less(a, b)} :: good(a) && good(b) && less(a, b) ==> !less(b, a))
    && forall a, b, c {:trigger less(a, c), good(b)} :: good(a) && good(b) && good(c) && less(a, c) ==> less(a, b) || less(b, c)
  }

  /** A strict total order on all lines. */
  ghost predicate IsTotalOrder<T(!new)>(less: Less<T>)
  {
    IsWeakOrder(less, (_: T) => true) && forall a, b {:trigger less(a, b)} :: a == b || less(a, b) || less(b, a)
  }

  ghost predicate AreGood<T>(good: T -> bool, lines: seq<T>)
  {
    forall i :: 0 <= i < |lines| ==> good(lines[i])
  }

  /** No later line comes before an earlier one. */
  ghost predicate IsOrdered<T>(less: Less<T>, lines: seq<T>)
  {
    forall i, j :: 0 <= i < j < |lines| ==> !less(lines[j], lines[i])
  }

  predicate AreEquivalent<T>(less: Less<T>, a: T, b: T)
  {
    !less(a, b) && !less(b, a)
  }

  /** The lines that are as large as `x`, in order. */
  function Peers<T>(less: Less<T>, lines: seq<T>, x: T): seq<T>
  {
    if lines == [] then []
    else
      var before, last := Peers(less, lines[..|lines| - 1], x), lines[|lines| - 1];
      if AreEquivalent(less, last, x) then before + [last] else before
  }

  /** Equally large lines keep their order. */
  ghost predicate IsStable<T(!new)>(less: Less<T>, good: T -> bool, lines: seq<T>, sorted: seq<T>)
  {
    forall x :: good(x) ==> Peers(less, sorted, x) == Peers(less, lines, x)
  }

  // ----- insertion

  /** The new line moves left past every line it comes before. */
  function Insert<T>(less: Less<T>, sorted: seq<T>, x: T): seq<T>
  {
    if sorted == [] || !less(x, sorted[|sorted| - 1]) then sorted + [x]
    else Insert(less, sorted[..|sorted| - 1], x) + [sorted[|sorted| - 1]]
  }

  function StableSorted<T>(less: Less<T>, lines: seq<T>): seq<T>
  {
    if lines == [] then [] else Insert(less, StableSorted(less, lines[..|lines| - 1]), lines[|lines| - 1])
  }

  lemma {:induction false} InsertPermutes<T>(less: Less<T>, sorted: seq<T>, x: T)
    ensures multiset(Insert(less, sorted, x)) == multiset(sorted) + multiset{x}
    ensures |Insert(less, sorted, x)| == |sorted| + 1
  {
    if sorted != [] && less(x, sorted[|sorted| - 1]) {
      var front, last := sorted[..|sorted| - 1], sorted[|sorted| - 1];
      InsertPermutes(less, front, x);
      assert sorted == front + [last];
    }
  }

  lemma {:induction false} SortPermutes<T>(less: Less<T>, lines: seq<T>)
    ensures multiset(StableSorted(less, lines)) == multiset(lines) && |StableSorted(less, lines)| == |lines|
  {
    if lines != [] {
      SortPermutes(less, lines[..|lines| - 1]);
      InsertPermutes(less, StableSorted(less, lines[..|lines| - 1]), lines[|lines| - 1]);
      assert lines == lines[..|lines| - 1] + [lines[|lines| - 1]];
    }
  }

  lemma {:induction false} SameElements<T(!new)>(a: seq<T>, b: seq<T>)
    requires multiset(a) == multiset(b)
    ensures forall x :: x in a <==> x in b
  {
    forall x ensures x in a <==> x in b {
      assert x in a <==> x in multiset(a);
      assert x in b <==> x in multiset(b);
    }
  }

  lemma {:induction false} AppendKeepsOrder<T(!new)>(less: Less<T>, good: T -> bool, sorted: seq<T>, x: T)
    requires IsWeakOrder(less, good) && AreGood(good, sorted) && good(x)
    requires IsOrdered(less, sorted) && (sorted != [] ==> !less(x, sorted[|sorted| - 1]))
    ensures IsOrdered(less, sorted + [x])
  {
    forall i | 0 <= i < |sorted| ensures !less(x, sorted[i]) {
      assert i < |sorted| - 1 ==> !less(sorted[|sorted| - 1], sorted[i]);
      assert good(sorted[i]) && good(sorted[|sorted| - 1]);
    }
  }

  lemma {:induction false} InsertKeepsOrder<T(!new)>(less: Less<T>, good: T -> bool, sorted: seq<T>, x: T)
    requires IsWeakOrder(less, good) && AreGood(good, sorted) && good(x) && IsOrdered(less, sorted)
    ensures IsOrdered(less, Insert(less, sorted, x))
  {
    if sorted == [] || !less(x, sorted[|sorted| - 1]) {
      AppendKeepsOrder(less, good, sorted, x);
    } else {
      var front, last := sorted[..|sorted| - 1], sorted[|sorted| - 1];
      InsertKeepsOrder(less, good, front, x);
      var placed := Insert(less, front, x);
      InsertPermutes(less, front, x);
      forall i | 0 <= i < |placed| ensures !less(last, placed[i]) {
        assert placed[i] in multiset(placed);
        if placed[i] != x {
          var k :| 0 <= k < |front| && front[k] == placed[i];
          assert sorted[k] == front[k];
        }
      }
    }
  }

  lemma {:induction false} InsertIsStable<T(!new)>(less: Less<T>, good: T -> bool, sorted: seq<T>, x: T, v: T)
    requires IsWeakOrder(less, good) && AreGood(good, sorted) && good(x) && good(v)
    ensures Peers(less, Insert(less, sorted, x), v) == Peers(less, sorted + [x], v)
  {
    if sorted != [] && less(x, sorted[|sorted| - 1]) {
      var front, last := sorted[..|sorted| - 1], sorted[|sorted| - 1];
      assert sorted == front + [last] && good(last);
      InsertIsStable(less, good, front, x, v);
      PeersOfMore(less, Insert(less, front, x), last, v);
      assert !(AreEquivalent(less, x, v) && AreEquivalent(less, last, v));
      PeersCommute(less, front, x, last, v);
    }
  }

  lemma {:induction false} PeersCommute<T>(less: Less<T>, front: seq<T>, x: T, y: T, v: T)
    requires !(AreEquivalent(less, x, v) && AreEquivalent(less, y, v))
    ensures Peers(less, front + [x], v) + (if AreEquivalent(less, y, v) then [y] else [])
      == Peers(less, front + [y] + [x], v)
  {
    PeersOfMore(less, front, x, v);
    PeersOfMore(less, front, y, v);
    PeersOfMore(less, front + [y], x, v);
  }

  lemma {:induction false} PeersOfMore<T>(less: Less<T>, lines: seq<T>, x: T, v: T)
    ensures Peers(less, lines + [x], v) == Peers(less, lines, v) + if AreEquivalent(less, x, v) then [x] else []
  {
    assert (lines + [x])[..|lines|] == lines;
  }

  /** Where the comparison is a weak order, sorting orders the lines, neither loses nor adds
      any, and keeps the order of equally large ones. */
  lemma {:induction false} SortSorts<T(!new)>(less: Less<T>, good: T -> bool, lines: seq<T>)
    requires IsWeakOrder(less, good) && AreGood(good, lines)
    ensures multiset(StableSorted(less, lines)) == multiset(lines)
    ensures IsOrdered(less, StableSorted(less, lines)) && AreGood(good, StableSorted(less, lines))
    ensures IsStable(less, good, lines, StableSorted(less, lines))
  {
    SortPermutes(less, lines);
    if lines != [] {
      var front, last := lines[..|lines| - 1], lines[|lines| - 1];
      SortSorts(less, good, front);
      InsertKeepsOrder(less, good, StableSorted(less, front), last);
      forall x | good(x) ensures Peers(less, StableSorted(less, lines), x) == Peers(less, lines, x) {
        InsertIsStable(less, good, StableSorted(less, front), last, x);
        PeersOfMore(less, StableSorted(less, front), last, x);
      }
      SameElements(StableSorted(less, lines), lines);
      forall i | 0 <= i < |lines| ensures good(StableSorted(less, lines)[i]) {
        assert StableSorted(less, lines)[i] in lines;
      }
    }
  }

  /** There is only one such result, so any other stable algorithm gives the same. */
  lemma {:induction false} SortIsDetermined<T(!new)>(less: Less<T>, good: T -> bool, a: seq<T>, b: seq<T>)
    requires IsWeakOrder(less, good) && AreGood(good, a) && AreGood(good, b) && multiset(a) == multiset(b)
    requires IsOrdered(less, a) && IsOrdered(less, b) && IsStable(less, good, a, b)
    ensures a == b
    decreases |a|
  {
    assert |a| == |multiset(a)| == |multiset(b)| == |b|;
    if a != [] {
      SameElements(a, b);
      var x, y := a[|a| - 1], b[|b| - 1];
      LargestIsLast(less, good, a, y);
      LargestIsLast(less, good, b, x);
      hide IsWeakOrder, IsOrdered;
      assert AreEquivalent(less, x, x) && AreEquivalent(less, y, x);
      Cancel(Peers(less, a[..|a| - 1], x), x, Peers(less, b[..|b| - 1], x), y);
      FrontsAgree(less, good, a, b);
      SortIsDetermined(less, good, a[..|a| - 1], b[..|b| - 1]);
    }
  }

  lemma {:induction false} LargestIsLast<T(!new)>(less: Less<T>, good: T -> bool, a: seq<T>, y: T)
    requires IsWeakOrder(less, good) && AreGood(good, a) && IsOrdered(less, a) && y in a
    ensures !less(a[|a| - 1], y) && AreEquivalent(less, a[|a| - 1], a[|a| - 1])
  {
  }

  lemma {:induction false} FrontsAgree<T(!new)>(less: Less<T>, good: T -> bool, a: seq<T>, b: seq<T>)
    requires a != [] && b != [] && a[|a| - 1] == b[|b| - 1] && multiset(a) == multiset(b) && IsStable(less, good, a, b)
    ensures multiset(a[..|a| - 1]) == multiset(b[..|b| - 1]) && IsStable(less, good, a[..|a| - 1], b[..|b| - 1])
  {
    var x, c, d := a[|a| - 1], a[..|a| - 1], b[..|b| - 1];
    assert a == c + [x] && b == d + [x];
    SameFronts(c, d, x);
    forall v | good(v) ensures Peers(less, d, v) == Peers(less, c, v) {
      PeersOfFronts(less, d, c, x, v);
    }
  }

  lemma {:induction false} SameFronts<T>(c: seq<T>, d: seq<T>, x: T)
    requires multiset(c + [x]) == multiset(d + [x])
    ensures multiset(c) == multiset(d)
  {
    assert multiset(c) == multiset(c + [x]) - multiset{x};
    assert multiset(d) == multiset(d + [x]) - multiset{x};
  }

  lemma {:induction false} PeersOfFronts<T>(less: Less<T>, c: seq<T>, d: seq<T>, x: T, v: T)
    requires Peers(less, c + [x], v) == Peers(less, d + [x], v)
    ensures Peers(less, c, v) == Peers(less, d, v)
  {
    PeersOfMore(less, c, x, v);
    PeersOfMore(less, d, x, v);
    if AreEquivalent(less, x, v) { Cancel(Peers(less, c, v), x, Peers(less, d, v), x); }
  }

  lemma {:induction false} Cancel<T>(a: seq<T>, x: T, b: seq<T>, y: T)
    requires a + [x] == b + [y]
    ensures a == b && x == y
  {
    assert a == (a + [x])[..|a|] && b == (b + [y])[..|b|];
    assert x == (a + [x])[|a|] && y == (b + [y])[|b|];
  }

  /** A list stays as it is when no element comes before its left neighbour. */
  lemma {:induction false} NeighboursStay<T>(less: Less<T>, lines: seq<T>)
    requires forall i, j :: 0 <= i < j < |lines| && j == i + 1 ==> !less(lines[j], lines[i])
    ensures StableSorted(less, lines) == lines
  {
    if lines != [] {
      NeighboursStay(less, lines[..|lines| - 1]);
      assert lines == lines[..|lines| - 1] + [lines[|lines| - 1]];
    }
  }

  lemma {:induction false} TotalIsTransitive<T(!new)>(less: Less<T>, a: T, b: T, c: T)
    requires IsTotalOrder(less) && less(a, b) && less(b, c)
    ensures less(a, c)
  {
    var all := (_: T) => true;
    assert IsWeakOrder(less, all) && all(c);
  }

  // ----- exactly when the result is ordered

  /** Three elements, in the order of the input, that sorting leaves unordered: the third stays
      behind the larger of the other two although it comes before the smaller. */
  predicate IsStuck<T>(less: Less<T>, x: T, y: T, z: T)
  {
    if less(y, x) then !less(z, x) && less(z, y) else !less(z, y) && less(z, x)
  }

  ghost predicate HasStuckTriple<T>(less: Less<T>, lines: seq<T>)
  {
    exists i, j, k :: 0 <= i < j < k < |lines| && IsStuck(less, lines[i], lines[j], lines[k])
  }

  /** Somewhere `c` stands before `a`. */
  ghost predicate StandsBefore<T>(lines: seq<T>, c: T, a: T)
  {
    exists i, j :: 0 <= i < j < |lines| && lines[i] == c && lines[j] == a
  }

  ghost predicate IsAsymmetric<T(!new)>(less: Less<T>)
  {
    forall a, b {:trigger less(a, b)} :: less(a, b) ==> !less(b, a)
  }

  /** Where insertion puts an element: behind the last one that it does not come before. */
  lemma {:induction false} InsertSplits<T>(less: Less<T>, sorted: seq<T>, x: T) returns (k: nat)
    ensures k <= |sorted| && Insert(less, sorted, x) == sorted[..k] + [x] + sorted[k..]
    ensures forall j :: k <= j < |sorted| ==> less(x, sorted[j])
    ensures k > 0 ==> !less(x, sorted[k - 1])
  {
    if sorted == [] || !less(x, sorted[|sorted| - 1]) {
      k := |sorted|;
    } else {
      var front := sorted[..|sorted| - 1];
      k := InsertSplits(less, front, x);
      assert sorted[..k] == front[..k] && sorted[k..] == front[k..] + [sorted[|sorted| - 1]];
    }
  }

  /** Elements that are there keep their order. */
  lemma {:induction false} PairStays<T>(sorted: seq<T>, x: T, k: nat, c: T, a: T)
    requires k <= |sorted| && StandsBefore(sorted, c, a)
    ensures StandsBefore(sorted[..k] + [x] + sorted[k..], c, a)
  {
    var i, j :| 0 <= i < j < |sorted| && sorted[i] == c && sorted[j] == a;
    var r := sorted[..k] + [x] + sorted[k..];
    var i', j' := if i < k then i else i + 1, if j < k then j else j + 1;
    assert r[i'] == c && r[j'] == a;
  }

  lemma {:induction false} InsertKeepsPair<T>(less: Less<T>, sorted: seq<T>, x: T, c: T, a: T)
    requires StandsBefore(sorted, c, a)
    ensures StandsBefore(Insert(less, sorted, x), c, a)
  {
    var k := InsertSplits(less, sorted, x);
    PairStays(sorted, x, k, c, a);
  }

  lemma {:induction false} SortKeepsPair<T>(less: Less<T>, lines: seq<T>, n: nat, c: T, a: T)
    requires n <= |lines| && StandsBefore(StableSorted(less, lines[..n]), c, a)
    ensures StandsBefore(StableSorted(less, lines), c, a)
    decreases |lines|
  {
    if n == |lines| {
      assert lines[..n] == lines;
    } else {
      var front := lines[..|lines| - 1];
      assert front[..n] == lines[..n];
      SortKeepsPair(less, front, n, c, a);
      InsertKeepsPair(less, StableSorted(less, front), lines[|lines| - 1], c, a);
    }
  }

  /** An element stays behind any that it does not come before, and what stands before that. */
  lemma {:induction false} StaysBehind<T>(less: Less<T>, sorted: seq<T>, x: T, q: T)
    requires q in sorted && !less(x, q)
    ensures StandsBefore(Insert(less, sorted, x), q, x)
    ensures forall p :: StandsBefore(sorted, p, q) ==> StandsBefore(Insert(less, sorted, x), p, x)
  {
    var k := InsertSplits(less, sorted, x);
    var r := Insert(less, sorted, x);
    var m :| 0 <= m < |sorted| && sorted[m] == q;
    assert m < k && r[m] == q && r[k] == x;
    forall p | StandsBefore(sorted, p, q) ensures StandsBefore(r, p, x) {
      var i, j :| 0 <= i < j < |sorted| && sorted[i] == p && sorted[j] == q;
      assert j < k && r[i] == p;
    }
  }

  lemma {:induction false} IsInSorted<T>(less: Less<T>, lines: seq<T>, n: nat, i: nat)
    requires i < n <= |lines|
    ensures lines[i] in StableSorted(less, lines[..n])
  {
    SortPermutes(less, lines[..n]);
    assert lines[..n][i] == lines[i];
    assert lines[i] in multiset(lines[..n]);
  }

  lemma {:induction false} OneMoreSorted<T>(less: Less<T>, lines: seq<T>, n: nat)
    requires n < |lines|
    ensures StableSorted(less, lines[..n + 1]) == Insert(less, StableSorted(less, lines[..n]), lines[n])
  {
    assert lines[..n + 1][..n] == lines[..n];
  }

  /** Two different elements stand before one another in some way. */
  lemma {:induction false} OneStandsBefore<T>(lines: seq<T>, a: T, b: T)
    requires a in lines && b in lines && a != b
    ensures StandsBefore(lines, a, b) || StandsBefore(lines, b, a)
  {
    var i :| 0 <= i < |lines| && lines[i] == a;
    var j :| 0 <= j < |lines| && lines[j] == b;
    assert i != j;
  }

  /** A pair that stands the wrong way round at some time spoils the result. */
  lemma {:induction false} WrongPairSpoils<T>(less: Less<T>, lines: seq<T>, n: nat, c: T, a: T)
    requires n <= |lines| && StandsBefore(StableSorted(less, lines[..n]), c, a) && less(a, c)
    ensures !IsOrdered(less, StableSorted(less, lines))
  {
    SortKeepsPair(less, lines, n, c, a);
  }

  /** After two elements of the input, the smaller stands before the larger, or the result is
      spoilt already. */
  lemma {:induction false} TwoSorted<T(!new)>(less: Less<T>, lines: seq<T>, i: nat, j: nat)
    requires IsAsymmetric(less) && i < j < |lines|
    ensures var x, y, s := lines[i], lines[j], StableSorted(less, lines[..j + 1]);
      if less(y, x) then StandsBefore(s, y, x) || StandsBefore(s, x, y) else StandsBefore(s, x, y)
  {
    var x, y := lines[i], lines[j];
    if less(y, x) {
      assert x != y;
      IsInSorted(less, lines, j + 1, i);
      IsInSorted(less, lines, j + 1, j);
      OneStandsBefore(StableSorted(less, lines[..j + 1]), x, y);
    } else {
      IsInSorted(less, lines, j, i);
      OneMoreSorted(less, lines, j);
      StaysBehind(less, StableSorted(less, lines[..j]), y, x);
    }
  }

  /** A third that does not come before the larger stays behind the smaller as well. */
  lemma {:induction false} ThirdStaysBehind<T(!new)>(less: Less<T>, lines: seq<T>, n: nat, k: nat, small: T, large: T)
    requires n <= k < |lines| && StandsBefore(StableSorted(less, lines[..n]), small, large) && !less(lines[k], large)
    ensures StandsBefore(StableSorted(less, lines[..k + 1]), small, lines[k])
  {
    assert lines[..k][..n] == lines[..n];
    SortKeepsPair(less, lines[..k], n, small, large);
    StaysBehind(less, StableSorted(less, lines[..k]), lines[k], large);
    OneMoreSorted(less, lines, k);
  }

  lemma {:induction false} StuckSpoils<T(!new)>(less: Less<T>, lines: seq<T>, i: nat, j: nat, k: nat)
    requires IsAsymmetric(less) && i < j < k < |lines| && IsStuck(less, lines[i], lines[j], lines[k])
    ensures !IsOrdered(less, StableSorted(less, lines))
  {
    hide StandsBefore, IsOrdered, StableSorted;
    var x, y := lines[i], lines[j];
    TwoSorted(less, lines, i, j);
    if less(y, x) && StandsBefore(StableSorted(less, lines[..j + 1]), x, y) {
      WrongPairSpoils(less, lines, j + 1, x, y);
    } else {
      var small, large := if less(y, x) then y else x, if less(y, x) then x else y;
      ThirdStaysBehind(less, lines, j + 1, k, small, large);
      WrongPairSpoils(less, lines, k + 1, small, lines[k]);
    }
  }

  /** Where a pair in a list with one more element comes from. */
  lemma {:induction false} PairInMore<T>(s: seq<T>, x: T, k: nat, e: T, q: T)
    requires k <= |s| && StandsBefore(s[..k] + [x] + s[k..], e, q)
    ensures StandsBefore(s, e, q) || (q == x && e in s) || (e == x && q in s[k..])
  {
    var r := s[..k] + [x] + s[k..];
    var a, b :| 0 <= a < b < |r| && r[a] == e && r[b] == q;
    var a', b' := if a < k then a else a - 1, if b < k then b else b - 1;
    if b == k {
      assert s[a] == e;
    } else if a == k {
      assert s[k..][b - 1 - k] == q;
    } else {
      assert s[a'] == e && s[b'] == q;
    }
  }

  lemma {:induction false} WasInInput<T>(less: Less<T>, lines: seq<T>, v: T) returns (i: nat)
    requires v in StableSorted(less, lines)
    ensures i < |lines| && lines[i] == v
  {
    SortPermutes(less, lines);
    assert v in multiset(StableSorted(less, lines));
    i :| 0 <= i < |lines| && lines[i] == v;
  }

  /** Why one element stands before another: it came first, or it came later and passed it. */
  lemma {:induction false} WhyBefore<T(!new)>(less: Less<T>, lines: seq<T>, e: T, q: T) returns (i: nat, j: nat)
    requires StandsBefore(StableSorted(less, lines), e, q)
    ensures i < j < |lines|
    ensures (lines[i] == e && lines[j] == q) || (lines[i] == q && lines[j] == e && less(e, q))
  {
    var n := |lines| - 1;
    var front := lines[..n];
    var s, z := StableSorted(less, front), lines[n];
    var k := InsertSplits(less, s, z);
    PairInMore(s, z, k, e, q);
    if StandsBefore(s, e, q) {
      i, j := WhyBefore(less, front, e, q);
    } else if q == z && e in s {
      i := WasInInput(less, front, e);
      j := n;
    } else {
      i := WasInInput(less, front, q);
      j := n;
    }
    assert front[i] == lines[i];
  }

  lemma {:induction false} UnorderedIsStuck<T(!new)>(less: Less<T>, lines: seq<T>)
    requires IsAsymmetric(less) && !IsOrdered(less, StableSorted(less, lines))
    ensures HasStuckTriple(less, lines)
  {
    var n := |lines| - 1;
    var s, z := StableSorted(less, lines[..n]), lines[n];
    if IsOrdered(less, s) {
      var e, q := WhereItStops(less, s, z);
      var i, j := WhyBefore(less, lines[..n], e, q);
      assert lines[..n][i] == lines[i] && lines[..n][j] == lines[j];
      assert IsStuck(less, lines[i], lines[j], lines[n]);
    } else {
      UnorderedIsStuck(less, lines[..n]);
      var i, j, k :| 0 <= i < j < k < n && IsStuck(less, lines[..n][i], lines[..n][j], lines[..n][k]);
      assert IsStuck(less, lines[i], lines[j], lines[k]);
    }
  }

  /** If inserting an element breaks the order, it stops behind one that hides a larger one. */
  lemma {:induction false} WhereItStops<T(!new)>(less: Less<T>, s: seq<T>, z: T) returns (e: T, q: T)
    requires IsAsymmetric(less) && IsOrdered(less, s) && !IsOrdered(less, Insert(less, s, z))
    ensures StandsBefore(s, e, q) && less(z, e) && !less(z, q) && !less(q, e)
  {
    var k := InsertSplits(less, s, z);
    var r := Insert(less, s, z);
    hide Insert;
    var a, b :| 0 <= a < b < |r| && less(r[b], r[a]);
    assert forall m :: 0 <= m < k ==> r[m] == s[m];
    assert forall m :: k < m < |r| ==> r[m] == s[m - 1];
    assert b == k;
    e, q := s[a], s[k - 1];
    assert a != k - 1;
  }

  /** The result is ordered exactly if no three elements get stuck. */
  lemma {:induction false} SortOrdersExactly<T(!new)>(less: Less<T>, lines: seq<T>)
    requires IsAsymmetric(less)
    ensures IsOrdered(less, StableSorted(less, lines)) <==> !HasStuckTriple(less, lines)
  {
    if i, j, k :| 0 <= i < j < k < |lines| && IsStuck(less, lines[i], lines[j], lines[k]) {
      StuckSpoils(less, lines, i, j, k);
    } else if !IsOrdered(less, StableSorted(less, lines)) {
      UnorderedIsStuck(less, lines);
    }
  }

  /** The comparison is consistent on these elements: whatever comes before another is told
      apart from it by every third. */
  ghost predicate IsConsistent<T>(less: Less<T>, lines: seq<T>)
  {
    forall a, b, c :: a in lines && b in lines && c in lines && less(a, c) ==> less(a, b) || less(b, c)
  }

  /** Takes three different elements to the front. */
  lemma {:induction false} ToFront<T>(lines: seq<T>, c: T, b: T, a: T) returns (rest: seq<T>)
    requires a in lines && b in lines && c in lines && a != b && b != c && a != c
    ensures multiset([c, b, a] + rest) == multiset(lines)
  {
    var r1 := Without(lines, c);
    var r2 := Without(r1, b);
    rest := Without(r2, a);
    Prepend(b, [a] + rest, r2);
    Prepend(c, [b] + ([a] + rest), r1);
    assert [c, b, a] + rest == [c] + ([b] + ([a] + rest));
  }

  lemma {:induction false} Prepend<T>(x: T, p: seq<T>, q: seq<T>)
    requires multiset(p) == multiset(q)
    ensures multiset([x] + p) == multiset([x] + q)
  {
  }

  lemma {:induction false} Without<T>(lines: seq<T>, x: T) returns (rest: seq<T>)
    requires x in lines
    ensures multiset([x] + rest) == multiset(lines)
    ensures forall y :: y in lines && y != x ==> y in rest
  {
    var k :| 0 <= k < |lines| && lines[k] == x;
    rest := lines[..k] + lines[k + 1..];
    assert lines == lines[..k] + [x] + lines[k + 1..];
  }

  // ----- reversal

  function Reversed<T>(lines: seq<T>): (r: seq<T>)
    ensures |r| == |lines| && forall i :: 0 <= i < |r| ==> r[i] == lines[|lines| - 1 - i]
  {
    seq(|lines|, i requires 0 <= i < |lines| => lines[|lines| - 1 - i])
  }

  /** The swapping loop of `Sort`. */
  method ReverseInPlace<T>(a: array<T>)
    modifies a
    ensures a[..] == Reversed(old(a[..]))
  {
    var i, j := 0, a.Length - 1;
    while i < j
      invariant 0 <= i && i + j == a.Length - 1 && i <= j + 1
      invariant forall k :: 0 <= k < i || j < k < a.Length ==> a[k] == old(a[a.Length - 1 - k])
      invariant forall k :: i <= k <= j ==> a[k] == old(a[k])
    {
      a[i], a[j] := a[j], a[i];
      i, j := i + 1, j - 1;
    }
  }

  lemma {:induction false} ReversePermutes<T>(lines: seq<T>)
    ensures multiset(Reversed(lines)) == multiset(lines)
  {
    if lines != [] {
      var front, last := lines[..|lines| - 1], lines[|lines| - 1];
      ReversePermutes(front);
      assert Reversed(lines) == [last] + Reversed(front) && lines == front + [last];
    }
  }
}
