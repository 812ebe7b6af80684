/** `sort.SliceStable` of Go's library: blocks of twenty lines sorted by insertion, then merged
    in place, twice as large each time. */
module Merging {
  import opened Orders

  const BLOCK := 20

  // ----- merging two runs

  /** The binary search of the library: where `p` turns false, if it does so once. */
  function Bisect(p: int -> bool, lo: int, hi: int): (k: int)
    requires lo <= hi
    ensures lo <= k <= hi
    ensures lo < k ==> p(k - 1)
    ensures k < hi ==> !p(k)
    decreases hi - lo
  {
    if lo == hi then lo
    else
      var h := (lo + hi) / 2;
      if p(h) then Bisect(p, h + 1, hi) else Bisect(p, lo, h)
  }

  lemma {:induction false} BisectStep(p: int -> bool, lo: int, hi: int, h: int)
    requires lo < hi && h == (lo + hi) / 2
    ensures Bisect(p, lo, hi) == if p(h) then Bisect(p, h + 1, hi) else Bisect(p, lo, h)
  {
  }

  /** How many elements of the first run stay in the left half. */
  function Cut<T>(less: Less<T>, u: seq<T>, v: seq<T>): (k: int)
    ensures 0 <= k <= |u| && 0 <= (|u| + |v|) / 2 - k <= |v|
  {
    var mid := (|u| + |v|) / 2;
    Bisect(Stays(less, u, v, mid), if |u| > mid then mid - |v| else 0, if |u| > mid then mid else |u|)
  }

  /** Whether element `c` of the first run stays in the left half, of `mid` elements: it is
      compared with the element of the second run that would have to make room for it. */
  function Stays<T>(less: Less<T>, u: seq<T>, v: seq<T>, mid: int): int -> bool
  {
    c => !(0 <= c < |u| && 0 <= mid - 1 - c < |v| && less(v[mid - 1 - c], u[c]))
  }

  function FirstPasses<T>(less: Less<T>, v: seq<T>, x: T): int -> bool
  {
    h => 0 <= h < |v| && less(v[h], x)
  }

  function LastPasses<T>(less: Less<T>, u: seq<T>, y: T): int -> bool
  {
    h => !(0 <= h < |u| && less(y, u[h]))
  }

  /** `symMerge`: the larger elements of the left half change places with the smaller ones of the
      right half, and both halves are merged. */
  function SymMerge<T>(less: Less<T>, u: seq<T>, v: seq<T>): (r: seq<T>)
    ensures |r| == |u| + |v|
    decreases |u| + |v|
  {
    if u == [] || v == [] then u + v
    else if |u| == 1 then
      var k := Bisect(FirstPasses(less, v, u[0]), 0, |v|);
      v[..k] + u + v[k..]
    else if |v| == 1 then
      var k := Bisect(LastPasses(less, u, v[0]), 0, |u|);
      u[..k] + v + u[k..]
    else
      var k, mid := Cut(less, u, v), (|u| + |v|) / 2;
      SymMerge(less, u[..k], v[..mid - k]) + SymMerge(less, u[k..], v[mid - k..])
  }

  lemma {:induction false} OneFirst<T>(less: Less<T>, u: seq<T>, v: seq<T>)
    requires |u| == 1 && v != []
    ensures var k := Bisect(FirstPasses(less, v, u[0]), 0, |v|); SymMerge(less, u, v) == v[..k] + u + v[k..]
  {
  }

  lemma {:induction false} OneSecond<T>(less: Less<T>, u: seq<T>, v: seq<T>)
    requires |u| > 1 && |v| == 1
    ensures var k := Bisect(LastPasses(less, u, v[0]), 0, |u|); SymMerge(less, u, v) == u[..k] + v + u[k..]
  {
  }

  lemma {:induction false} Halves<T>(less: Less<T>, u: seq<T>, v: seq<T>)
    requires |u| > 1 && |v| > 1
    ensures var k, e := Cut(less, u, v), (|u| + |v|) / 2 - Cut(less, u, v);
      SymMerge(less, u, v) == SymMerge(less, u[..k], v[..e]) + SymMerge(less, u[k..], v[e..])
  {
  }

  lemma {:induction false} OnlyOneRun<T>(less: Less<T>, u: seq<T>, v: seq<T>)
    requires u == [] || v == []
    ensures SymMerge(less, u, v) == u + v
  {
  }

  /** `r` holds the elements of `u` and `v`, both in their order. */
  ghost predicate Interleaves<T>(u: seq<T>, v: seq<T>, r: seq<T>)
    decreases r
  {
    if r == [] then u == [] && v == []
    else
      var front, last := r[..|r| - 1], r[|r| - 1];
      || (u != [] && u[|u| - 1] == last && Interleaves(u[..|u| - 1], v, front))
      || (v != [] && v[|v| - 1] == last && Interleaves(u, v[..|v| - 1], front))
  }

  lemma {:induction false} OneRunInterleaves<T>(u: seq<T>)
    ensures Interleaves(u, [], u) && Interleaves([], u, u)
  {
    if u != [] { OneRunInterleaves(u[..|u| - 1]); }
  }

  lemma {:induction false} InterleavingsJoin<T>(u: seq<T>, v: seq<T>, r: seq<T>, u': seq<T>, v': seq<T>, r': seq<T>)
    requires Interleaves(u, v, r) && Interleaves(u', v', r')
    ensures Interleaves(u + u', v + v', r + r')
    decreases r'
  {
    if r' == [] {
      assert u + u' == u && v + v' == v && r + r' == r;
    } else {
      var n := |r'| - 1;
      assert (r + r')[..|r + r'| - 1] == r + r'[..n];
      if u' != [] && u'[|u'| - 1] == r'[n] && Interleaves(u'[..|u'| - 1], v', r'[..n]) {
        InterleavingsJoin(u, v, r, u'[..|u'| - 1], v', r'[..n]);
        assert (u + u')[..|u + u'| - 1] == u + u'[..|u'| - 1];
      } else {
        InterleavingsJoin(u, v, r, u', v'[..|v'| - 1], r'[..n]);
        assert (v + v')[..|v + v'| - 1] == v + v'[..|v'| - 1];
      }
    }
  }

  /** Whatever the comparison says, merging keeps the elements, and the order in both runs. */
  lemma {:induction false} SymMergeInterleaves<T>(less: Less<T>, u: seq<T>, v: seq<T>)
    ensures Interleaves(u, v, SymMerge(less, u, v))
    decreases |u| + |v|
  {
    hide *;
    if u == [] || v == [] {
      OnlyOneRun(less, u, v);
      OneRunInterleaves(u + v);
      assert u + v == if u == [] then v else u;
    } else if |u| == 1 {
      OneFirst(less, u, v);
      PutInside(v, u, Bisect(FirstPasses(less, v, u[0]), 0, |v|));
    } else if |v| == 1 {
      OneSecond(less, u, v);
      PutInside(u, v, Bisect(LastPasses(less, u, v[0]), 0, |u|));
    } else {
      Halves(less, u, v);
      var k, e := Cut(less, u, v), (|u| + |v|) / 2 - Cut(less, u, v);
      SymMergeInterleaves(less, u[..k], v[..e]);
      SymMergeInterleaves(less, u[k..], v[e..]);
      PartsInterleave(u, v, k, e, SymMerge(less, u[..k], v[..e]), SymMerge(less, u[k..], v[e..]));
    }
  }

  lemma {:induction false} PartsInterleave<T>(u: seq<T>, v: seq<T>, k: nat, e: nat, left: seq<T>, right: seq<T>)
    requires k <= |u| && e <= |v| && Interleaves(u[..k], v[..e], left) && Interleaves(u[k..], v[e..], right)
    ensures Interleaves(u, v, left + right)
  {
    hide *;
    InterleavingsJoin(u[..k], v[..e], left, u[k..], v[e..], right);
    assert u[..k] + u[k..] == u && v[..e] + v[e..] == v;
  }

  lemma {:induction false} PutInside<T>(u: seq<T>, v: seq<T>, k: int)
    requires 0 <= k <= |u|
    ensures Interleaves(u, v, u[..k] + v + u[k..]) && Interleaves(v, u, u[..k] + v + u[k..])
  {
    hide Interleaves;
    var front, rest := u[..k], u[k..];
    OneRunInterleaves(front);
    OneRunInterleaves(v);
    OneRunInterleaves(rest);
    InterleavingsJoin(front, [], front, [], v, v);
    assert front + [] == front && [] + v == v;
    InterleavingsJoin(front, v, front + v, rest, [], rest);
    assert front + rest == u && v + [] == v;
    InterleavesEitherWay(u, v, front + v + rest);
  }

  lemma {:induction false} InterleavesEitherWay<T>(u: seq<T>, v: seq<T>, r: seq<T>)
    requires Interleaves(u, v, r)
    ensures Interleaves(v, u, r)
    decreases r
  {
    if r != [] {
      var front, last := r[..|r| - 1], r[|r| - 1];
      if u != [] && u[|u| - 1] == last && Interleaves(u[..|u| - 1], v, front) {
        InterleavesEitherWay(u[..|u| - 1], v, front);
      } else {
        InterleavesEitherWay(u, v[..|v| - 1], front);
      }
    }
  }

  lemma {:induction false} InterleavingKeeps<T(!new)>(u: seq<T>, v: seq<T>, r: seq<T>)
    requires Interleaves(u, v, r)
    ensures multiset(r) == multiset(u) + multiset(v) && |r| == |u| + |v|
    ensures forall c, a :: StandsBefore(u, c, a) || StandsBefore(v, c, a) ==> StandsBefore(r, c, a)
    decreases r
  {
    if r != [] {
      var front, last := r[..|r| - 1], r[|r| - 1];
      assert r == front + [last];
      if u != [] && u[|u| - 1] == last && Interleaves(u[..|u| - 1], v, front) {
        InterleavingKeeps(u[..|u| - 1], v, front);
        assert u == u[..|u| - 1] + [last];
        LastJoins(u[..|u| - 1], v, front, last);
      } else {
        InterleavingKeeps(u, v[..|v| - 1], front);
        assert v == v[..|v| - 1] + [last];
        LastJoins(v[..|v| - 1], u, front, last);
      }
    }
  }

  lemma {:induction false} LastJoins<T(!new)>(u: seq<T>, v: seq<T>, r: seq<T>, x: T)
    requires multiset(r) == multiset(u) + multiset(v)
    requires forall c, a :: StandsBefore(u, c, a) || StandsBefore(v, c, a) ==> StandsBefore(r, c, a)
    ensures forall c, a :: StandsBefore(u + [x], c, a) || StandsBefore(v, c, a) ==> StandsBefore(r + [x], c, a)
  {
    forall c, a | StandsBefore(u + [x], c, a) || StandsBefore(v, c, a) ensures StandsBefore(r + [x], c, a) {
      if StandsBefore(u, c, a) || StandsBefore(v, c, a) {
        var i, j :| 0 <= i < j < |r| && r[i] == c && r[j] == a;
        assert (r + [x])[i] == c && (r + [x])[j] == a;
      } else {
        BeforeLast(u, x, c, a);
        assert c in multiset(r);
        var m :| 0 <= m < |r| && r[m] == c;
        assert (r + [x])[m] == c && (r + [x])[|r|] == a;
      }
    }
  }

  lemma {:induction false} BeforeLast<T>(u: seq<T>, x: T, c: T, a: T)
    requires StandsBefore(u + [x], c, a)
    ensures StandsBefore(u, c, a) || (c in u && a == x)
  {
    var i, j :| 0 <= i < j < |u + [x]| && (u + [x])[i] == c && (u + [x])[j] == a;
    assert u[i] == c && (j == |u| || u[j] == a);
  }

  // ----- the merge as it is meant

  /** From the end: an element of the first run comes last if the last of the second comes
      before it. */
  function Merge<T>(less: Less<T>, u: seq<T>, v: seq<T>): seq<T>
    decreases |u| + |v|
  {
    if u == [] || v == [] then u + v
    else if less(v[|v| - 1], u[|u| - 1]) then Merge(less, u[..|u| - 1], v) + [u[|u| - 1]]
    else Merge(less, u, v[..|v| - 1]) + [v[|v| - 1]]
  }

  /** Later elements of the first run are passed by more of the second, and earlier elements of
      the second pass more of the first. */
  ghost predicate IsStaircase<T>(less: Less<T>, u: seq<T>, v: seq<T>)
  {
    forall i, j, i', j' :: 0 <= i <= i' < |u| && 0 <= j' <= j < |v| && less(v[j], u[i]) ==> less(v[j'], u[i'])
  }

  /** The front of each run stays before the rest of the other. */
  ghost predicate AreApart<T>(less: Less<T>, u: seq<T>, v: seq<T>, k: nat, e: nat)
  {
    && k <= |u| && e <= |v|
    && (forall i, j :: 0 <= i < k && e <= j < |v| ==> !less(v[j], u[i]))
    && (forall i, j :: k <= i < |u| && 0 <= j < e ==> less(v[j], u[i]))
  }

  lemma {:induction false} FrontsAreApart<T>(less: Less<T>, u: seq<T>, v: seq<T>, k: nat, e: nat)
    requires AreApart(less, u, v, k, e)
    ensures k < |u| ==> AreApart(less, u[..|u| - 1], v, k, e) && (0 < e == |v| ==> less(v[|v| - 1], u[|u| - 1]))
    ensures e < |v| ==> AreApart(less, u, v[..|v| - 1], k, e) && (0 < k == |u| ==> !less(v[|v| - 1], u[|u| - 1]))
  {
  }

  /** There a merge falls apart. */
  lemma {:induction false} MergeSplits<T>(less: Less<T>, u: seq<T>, v: seq<T>, k: nat, e: nat)
    requires AreApart(less, u, v, k, e)
    ensures Merge(less, u, v) == Merge(less, u[..k], v[..e]) + Merge(less, u[k..], v[e..])
    decreases |u| + |v|
  {
    FrontsAreApart(less, u, v, k, e);
    if k == |u| && e == |v| {
      MergeOfNothing(less, u[k..], v[e..]);
      assert u[..k] == u && v[..e] == v && u[k..] == [] && v[e..] == [];
    } else if e == |v| || (k < |u| && less(v[|v| - 1], u[|u| - 1])) {
      hide Merge;
      MergeSplits(less, u[..|u| - 1], v, k, e);
      FirstGoesLast(less, u, v, k, e);
    } else {
      hide Merge;
      MergeSplits(less, u, v[..|v| - 1], k, e);
      SecondGoesLast(less, u, v, k, e);
    }
  }

  lemma {:induction false} FirstGoesLast<T>(less: Less<T>, u: seq<T>, v: seq<T>, k: nat, e: nat)
    requires k < |u| && e <= |v| && (v == [] || less(v[|v| - 1], u[|u| - 1]))
    requires var u' := u[..|u| - 1]; Merge(less, u', v) == Merge(less, u'[..k], v[..e]) + Merge(less, u'[k..], v[e..])
    ensures Merge(less, u, v) == Merge(less, u[..k], v[..e]) + Merge(less, u[k..], v[e..])
  {
    hide Merge;
    assert u[..|u| - 1][..k] == u[..k];
    FrontOfRest(u, k);
    LargerFirst(less, u, v);
    LargerFirst(less, u[k..], v[e..]);
  }

  lemma {:induction false} SecondGoesLast<T>(less: Less<T>, u: seq<T>, v: seq<T>, k: nat, e: nat)
    requires k <= |u| && e < |v| && (u == [] || !less(v[|v| - 1], u[|u| - 1]))
    requires var v' := v[..|v| - 1]; Merge(less, u, v') == Merge(less, u[..k], v'[..e]) + Merge(less, u[k..], v'[e..])
    ensures Merge(less, u, v) == Merge(less, u[..k], v[..e]) + Merge(less, u[k..], v[e..])
  {
    hide Merge;
    assert v[..|v| - 1][..e] == v[..e];
    FrontOfRest(v, e);
    LargerSecond(less, u, v);
    LargerSecond(less, u[k..], v[e..]);
  }

  lemma {:induction false} MergeOfNothing<T>(less: Less<T>, u: seq<T>, v: seq<T>)
    ensures u == [] ==> Merge(less, u, v) == v
    ensures v == [] ==> Merge(less, u, v) == u
  {
    assert u == [] ==> u + v == v;
    assert v == [] ==> u + v == u;
  }

  lemma {:induction false} FrontOfRest<T>(u: seq<T>, k: nat)
    requires k < |u|
    ensures u[..|u| - 1][k..] == u[k..][..|u[k..]| - 1] && u[k..][|u[k..]| - 1] == u[|u| - 1]
  {
  }

  lemma {:induction false} LargerFirst<T>(less: Less<T>, u: seq<T>, v: seq<T>)
    requires u != [] && (v == [] || less(v[|v| - 1], u[|u| - 1]))
    ensures Merge(less, u, v) == Merge(less, u[..|u| - 1], v) + [u[|u| - 1]]
  {
    assert v == [] ==> u + v == u[..|u| - 1] + v + [u[|u| - 1]];
  }

  lemma {:induction false} LargerSecond<T>(less: Less<T>, u: seq<T>, v: seq<T>)
    requires v != [] && (u == [] || !less(v[|v| - 1], u[|u| - 1]))
    ensures Merge(less, u, v) == Merge(less, u, v[..|v| - 1]) + [v[|v| - 1]]
  {
    assert u == [] ==> u + v == u + v[..|v| - 1] + [v[|v| - 1]];
  }

  /** On a staircase the binary searches find what they look for. */
  lemma {:induction false} SymMergeMerges<T>(less: Less<T>, u: seq<T>, v: seq<T>)
    requires IsStaircase(less, u, v)
    ensures SymMerge(less, u, v) == Merge(less, u, v)
    decreases |u| + |v|
  {
    hide Merge, Bisect, Stays;
    if u == [] || v == [] {
      MergeOfNothing(less, u, v);
      assert u + v == if u == [] then v else u;
    } else if |u| == 1 {
      OneAgainstRun(less, u, v);
    } else if |v| == 1 {
      RunAgainstOne(less, u, v);
    } else {
      HalvesAreMerged(less, u, v);
      var k, mid := Cut(less, u, v), (|u| + |v|) / 2;
      hide *;
      SymMergeMerges(less, u[..k], v[..mid - k]);
      SymMergeMerges(less, u[k..], v[mid - k..]);
    }
  }

  lemma {:induction false} HalvesAreMerged<T>(less: Less<T>, u: seq<T>, v: seq<T>)
    requires |u| > 1 && |v| > 1 && IsStaircase(less, u, v)
    ensures var k, e := Cut(less, u, v), (|u| + |v|) / 2 - Cut(less, u, v);
      && SymMerge(less, u, v) == SymMerge(less, u[..k], v[..e]) + SymMerge(less, u[k..], v[e..])
      && Merge(less, u, v) == Merge(less, u[..k], v[..e]) + Merge(less, u[k..], v[e..])
      && IsStaircase(less, u[..k], v[..e]) && IsStaircase(less, u[k..], v[e..])
  {
    hide *;
    var k, e := Cut(less, u, v), (|u| + |v|) / 2 - Cut(less, u, v);
    Halves(less, u, v);
    CutSplits(less, u, v);
    MergeSplits(less, u, v, k, e);
    PartsAreStaircases(less, u, v, k, e);
  }

  lemma {:induction false} OneAgainstRun<T>(less: Less<T>, u: seq<T>, v: seq<T>)
    requires |u| == 1 && v != [] && IsStaircase(less, u, v)
    ensures SymMerge(less, u, v) == Merge(less, u, v)
  {
    hide Merge;
    var k := Bisect(FirstPasses(less, v, u[0]), 0, |v|);
    var w := v[k..];
    forall j | 0 <= j < |v| ensures less(v[j], u[0]) <==> j < k {
      assert k > 0 ==> FirstPasses(less, v, u[0])(k - 1);
    }
    MergeSplits(less, u, v, 0, k);
    MergeSplits(less, u, w, 1, 0);
    assert u[..0] == [] && u[0..] == u && u[..1] == u && u[1..] == [] && w[..0] == [] && w[0..] == w;
    MergeOfNothing(less, [], v[..k]);
    MergeOfNothing(less, u, []);
    MergeOfNothing(less, [], w);
  }

  lemma {:induction false} RunAgainstOne<T>(less: Less<T>, u: seq<T>, v: seq<T>)
    requires |u| > 1 && |v| == 1 && IsStaircase(less, u, v)
    ensures SymMerge(less, u, v) == Merge(less, u, v)
  {
    hide Merge;
    var k := Bisect(LastPasses(less, u, v[0]), 0, |u|);
    var w := u[k..];
    forall i | 0 <= i < |u| ensures less(v[0], u[i]) <==> k <= i {
      assert k > 0 ==> LastPasses(less, u, v[0])(k - 1);
    }
    MergeSplits(less, u, v, k, 0);
    MergeSplits(less, w, v, 0, 1);
    assert v[..0] == [] && v[0..] == v && v[..1] == v && v[1..] == [] && w[..0] == [] && w[0..] == w;
    MergeOfNothing(less, u[..k], []);
    MergeOfNothing(less, [], v);
    MergeOfNothing(less, w, []);
  }

  lemma {:induction false} PartsAreStaircases<T>(less: Less<T>, u: seq<T>, v: seq<T>, k: nat, e: nat)
    requires k <= |u| && e <= |v| && IsStaircase(less, u, v)
    ensures IsStaircase(less, u[..k], v[..e]) && IsStaircase(less, u[k..], v[e..])
  {
  }

  lemma {:induction false} CutSplits<T>(less: Less<T>, u: seq<T>, v: seq<T>)
    requires IsStaircase(less, u, v)
    ensures AreApart(less, u, v, Cut(less, u, v), (|u| + |v|) / 2 - Cut(less, u, v))
  {
    var k, mid := Cut(less, u, v), (|u| + |v|) / 2;
    CutIsTurn(less, u, v);
    hide Cut, Stays;
    forall i, j | 0 <= i < k && mid - k <= j < |v| ensures !less(v[j], u[i]) {
      assert !less(v[mid - k], u[k - 1]);
    }
    forall i, j | k <= i < |u| && 0 <= j < mid - k ensures less(v[j], u[i]) {
      assert less(v[mid - k - 1], u[k]);
    }
  }

  /** The pair before the cut stays as it is, the pair at the cut changes places. */
  lemma {:induction false} CutIsTurn<T>(less: Less<T>, u: seq<T>, v: seq<T>)
    ensures var k, e := Cut(less, u, v), (|u| + |v|) / 2 - Cut(less, u, v);
      && (0 < k && e < |v| ==> !less(v[e], u[k - 1]))
      && (k < |u| && 0 < e ==> less(v[e - 1], u[k]))
  {
    var k, mid := Cut(less, u, v), (|u| + |v|) / 2;
    assert 0 < k && mid - k < |v| ==> Stays(less, u, v, mid)(k - 1);
    assert k < |u| && 0 < mid - k ==> !Stays(less, u, v, mid)(k);
  }

  // ----- where nothing gets stuck

  ghost predicate IsUnstuck<T(!new)>(less: Less<T>, lines: seq<T>)
  {
    IsAsymmetric(less) && !HasStuckTriple(less, lines)
  }

  lemma {:induction false} StuckInPart<T>(less: Less<T>, a: seq<T>, b: seq<T>, c: seq<T>)
    requires HasStuckTriple(less, b)
    ensures HasStuckTriple(less, a + b + c)
  {
    var i, j, k :| 0 <= i < j < k < |b| && IsStuck(less, b[i], b[j], b[k]);
    var lines, n := a + b + c, |a|;
    assert lines[n + i] == b[i] && lines[n + j] == b[j] && lines[n + k] == b[k];
  }

  lemma {:induction false} PartsAreUnstuck<T(!new)>(less: Less<T>, a: seq<T>, b: seq<T>)
    requires IsUnstuck(less, a + b)
    ensures IsUnstuck(less, a) && IsUnstuck(less, b)
  {
    assert [] + a + b == a + b && a + b + [] == a + b;
    if HasStuckTriple(less, a) {
      StuckInPart(less, [], a, b);
    } else if HasStuckTriple(less, b) {
      StuckInPart(less, a, b, []);
    }
  }

  /** A later line that comes before one of the sorted lines comes before all behind it. */
  lemma {:induction false} PassesTheRest<T(!new)>(less: Less<T>, a: seq<T>, b: seq<T>, e: T, q: T, z: T)
    requires IsUnstuck(less, a + b) && StandsBefore(StableSorted(less, a), e, q) && z in b && less(z, e)
    ensures less(z, q)
  {
    var lines := a + b;
    PartsAreUnstuck(less, a, b);
    SortOrdersExactly(less, a);
    assert !less(q, e);
    var i, j := WhyBefore(less, a, e, q);
    var k :| 0 <= k < |b| && b[k] == z;
    assert lines[i] == a[i] && lines[j] == a[j] && lines[|a| + k] == z;
    assert !IsStuck(less, lines[i], lines[j], lines[|a| + k]);
  }

  /** An earlier line that one of the sorted lines passes is passed by all in front of that. */
  lemma {:induction false} FrontPasses<T(!new)>(less: Less<T>, a: seq<T>, b: seq<T>, x: T, e: T, q: T)
    requires IsUnstuck(less, a + b) && StandsBefore(StableSorted(less, b), e, q) && x in a && less(q, x)
    ensures less(e, x)
  {
    var lines := a + b;
    PartsAreUnstuck(less, a, b);
    SortOrdersExactly(less, b);
    assert !less(q, e);
    var i, j := WhyBefore(less, b, e, q);
    var k :| 0 <= k < |a| && a[k] == x;
    assert lines[k] == a[k] && lines[|a| + i] == b[i] && lines[|a| + j] == b[j];
    assert !IsStuck(less, lines[k], lines[|a| + i], lines[|a| + j]);
  }

  lemma {:induction false} SortedRunsAreStaircase<T(!new)>(less: Less<T>, a: seq<T>, b: seq<T>)
    requires IsUnstuck(less, a + b)
    ensures IsStaircase(less, StableSorted(less, a), StableSorted(less, b))
  {
    var u, v := StableSorted(less, a), StableSorted(less, b);
    hide IsUnstuck, StableSorted;
    forall i, j, i', j' | 0 <= i <= i' < |u| && 0 <= j' <= j < |v| && less(v[j], u[i]) ensures less(v[j'], u[i']) {
      StepIsPassed(less, a, b, i, i', j', j);
    }
  }

  lemma {:induction false} StepIsPassed<T(!new)>(less: Less<T>, a: seq<T>, b: seq<T>, i: nat, i': nat, j': nat, j: nat)
    requires IsUnstuck(less, a + b) && i <= i' < |StableSorted(less, a)| && j' <= j < |StableSorted(less, b)|
    requires less(StableSorted(less, b)[j], StableSorted(less, a)[i])
    ensures less(StableSorted(less, b)[j'], StableSorted(less, a)[i'])
  {
    hide IsUnstuck, StableSorted;
    var u, v := StableSorted(less, a), StableSorted(less, b);
    var k := WasInInput(less, a, u[i']);
    var m := WasInInput(less, b, v[j]);
    if i < i' { PassesTheRest(less, a, b, u[i], u[i'], v[j]); }
    if j' < j { FrontPasses(less, a, b, u[i'], v[j'], v[j]); }
  }

  /** What stands behind a line that `z` comes before, `z` comes before as well. */
  ghost predicate PassesTail<T(!new)>(less: Less<T>, sorted: seq<T>, z: T)
  {
    forall e, q :: StandsBefore(sorted, e, q) && less(z, e) ==> less(z, q)
  }

  /** Inserting a line into the merge is inserting it into the second run, if it passes a tail of
      the merge. */
  lemma {:induction false} InsertIntoMerge<T(!new)>(less: Less<T>, u: seq<T>, v: seq<T>, z: T)
    requires PassesTail(less, Merge(less, u, v), z)
    ensures Insert(less, Merge(less, u, v), z) == Merge(less, u, Insert(less, v, z))
    decreases |u| + |v|
  {
    hide Merge;
    var r := Merge(less, u, v);
    MergeOfNothing(less, u, v);
    if u != [] && (v == [] || less(v[|v| - 1], u[|u| - 1])) {
      LargerFirst(less, u, v);
      var u', last := u[..|u| - 1], u[|u| - 1];
      FrontPassesToo(less, Merge(less, u', v), last, z);
      InsertIntoMerge(less, u', v, z);
      InsertPermutes(less, v, z);
      if less(z, last) {
        LargerFirst(less, u, Insert(less, v, z));
        assert r[..|r| - 1] == Merge(less, u', v);
      } else {
        NonePassed(less, u, v, z);
        LargerSecond(less, u, v + [z]);
        assert (v + [z])[..|v|] == v;
      }
    } else if v != [] {
      LargerSecond(less, u, v);
      var v', last := v[..|v| - 1], v[|v| - 1];
      FrontPassesToo(less, Merge(less, u, v'), last, z);
      InsertIntoMerge(less, u, v', z);
      if less(z, last) {
        var w := Insert(less, v', z);
        LargerSecond(less, u, w + [last]);
        assert (w + [last])[..|w|] == w && r[..|r| - 1] == Merge(less, u, v');
      } else {
        NonePassed(less, u, v, z);
        LargerSecond(less, u, v + [z]);
        assert (v + [z])[..|v|] == v;
      }
    } else {
      MergeOfNothing(less, [], [z]);
      assert Insert(less, [], z) == [z];
    }
  }

  lemma {:induction false} FrontPassesToo<T(!new)>(less: Less<T>, front: seq<T>, last: T, z: T)
    requires PassesTail(less, front + [last], z)
    ensures PassesTail(less, front, z)
  {
    forall e, q | StandsBefore(front, e, q) && less(z, e) ensures less(z, q) {
      var i, j :| 0 <= i < j < |front| && front[i] == e && front[j] == q;
      assert (front + [last])[i] == e && (front + [last])[j] == q;
    }
  }

  lemma {:induction false} NonePassed<T(!new)>(less: Less<T>, u: seq<T>, v: seq<T>, z: T)
    requires u != [] || v != []
    requires Merge(less, u, v) != [] && !less(z, Merge(less, u, v)[|Merge(less, u, v)| - 1])
    requires PassesTail(less, Merge(less, u, v), z)
    ensures (u != [] ==> !less(z, u[|u| - 1])) && (v != [] ==> !less(z, v[|v| - 1]))
  {
    var r := Merge(less, u, v);
    MergePermutes(less, u, v);
    forall x | x in r ensures !less(z, x) {
      var i :| 0 <= i < |r| && r[i] == x;
      if i < |r| - 1 { assert StandsBefore(r, x, r[|r| - 1]); }
    }
    assert forall x :: x in multiset(r) ==> x in r;
    assert u != [] ==> u[|u| - 1] in multiset(u);
    assert v != [] ==> v[|v| - 1] in multiset(v);
  }

  lemma {:induction false} MergePermutes<T>(less: Less<T>, u: seq<T>, v: seq<T>)
    ensures multiset(Merge(less, u, v)) == multiset(u) + multiset(v)
    decreases |u| + |v|
  {
    hide Merge;
    if u == [] || v == [] {
      MergeOfNothing(less, u, v);
    } else if less(v[|v| - 1], u[|u| - 1]) {
      LargerFirst(less, u, v);
      MergePermutes(less, u[..|u| - 1], v);
      assert u == u[..|u| - 1] + [u[|u| - 1]];
    } else {
      LargerSecond(less, u, v);
      MergePermutes(less, u, v[..|v| - 1]);
      assert v == v[..|v| - 1] + [v[|v| - 1]];
    }
  }

  /** Merging two sorted halves is sorting the whole by insertion. */
  lemma {:induction false} MergeOfSorted<T(!new)>(less: Less<T>, a: seq<T>, b: seq<T>)
    requires IsUnstuck(less, a + b)
    ensures Merge(less, StableSorted(less, a), StableSorted(less, b)) == StableSorted(less, a + b)
    decreases |b|
  {
    var u := StableSorted(less, a);
    if b == [] {
      MergeOfNothing(less, u, []);
      assert a + b == a;
    } else {
      var b', z := b[..|b| - 1], b[|b| - 1];
      assert a + b == (a + b') + [z] && (a + b)[..|a + b| - 1] == a + b';
      PartsAreUnstuck(less, a + b', [z]);
      MergeOfSorted(less, a, b');
      forall e, q | StandsBefore(StableSorted(less, a + b'), e, q) && less(z, e) ensures less(z, q) {
        PassesTheRest(less, a + b', [z], e, q, z);
      }
      InsertIntoMerge(less, u, StableSorted(less, b'), z);
    }
  }

  lemma {:induction false} SymMergeOfSorted<T(!new)>(less: Less<T>, a: seq<T>, b: seq<T>)
    requires IsUnstuck(less, a + b)
    ensures SymMerge(less, StableSorted(less, a), StableSorted(less, b)) == StableSorted(less, a + b)
  {
    SortedRunsAreStaircase(less, a, b);
    SymMergeMerges(less, StableSorted(less, a), StableSorted(less, b));
    MergeOfSorted(less, a, b);
  }

  // ----- blocks

  function SortBlocks<T>(less: Less<T>, lines: seq<T>, size: nat): (r: seq<T>)
    requires size > 0
  {
    if |lines| <= size then StableSorted(less, lines)
    else StableSorted(less, lines[..size]) + SortBlocks(less, lines[size..], size)
  }

  /** One pass: every run of `size` lines is merged with its neighbour. */
  function MergeBlocks<T>(less: Less<T>, lines: seq<T>, size: nat): (r: seq<T>)
    requires size > 0
    ensures |r| == |lines|
  {
    if |lines| <= size then lines
    else if |lines| <= 2 * size then SymMerge(less, lines[..size], lines[size..])
    else SymMerge(less, lines[..size], lines[size..2 * size]) + MergeBlocks(less, lines[2 * size..], size)
  }

  function MergeAll<T>(less: Less<T>, lines: seq<T>, size: nat): seq<T>
    requires size > 0
    decreases |lines| - size
  {
    if size < |lines| then MergeAll(less, MergeBlocks(less, lines, size), 2 * size) else lines
  }

  /** What `sort.SliceStable` makes of the lines. */
  function SliceSorted<T>(less: Less<T>, lines: seq<T>): seq<T>
  {
    MergeAll(less, SortBlocks(less, lines, BLOCK), BLOCK)
  }

  lemma {:induction false} NoneIsSorted<T>(less: Less<T>, lines: seq<T>)
    requires lines == []
    ensures StableSorted(less, lines) == lines
  {
  }

  lemma {:induction false} FirstBlock<T>(less: Less<T>, lines: seq<T>, size: nat)
    requires size > 0 && |lines| >= size
    ensures SortBlocks(less, lines, size) == StableSorted(less, lines[..size]) + SortBlocks(less, lines[size..], size)
  {
    if |lines| == size {
      assert lines[..size] == lines && lines[size..] == [];
      NoneIsSorted(less, []);
    }
  }

  lemma {:induction false} LastBlock<T>(less: Less<T>, lines: seq<T>, size: nat)
    requires size > 0 && |lines| < size
    ensures SortBlocks(less, lines, size) == StableSorted(less, lines)
  {
  }

  lemma {:induction false} FirstRuns<T>(less: Less<T>, lines: seq<T>, size: nat)
    requires size > 0 && |lines| >= 2 * size
    ensures MergeBlocks(less, lines, size)
      == SymMerge(less, lines[..size], lines[size..2 * size]) + MergeBlocks(less, lines[2 * size..], size)
  {
    hide SymMerge;
    if |lines| == 2 * size {
      assert lines[size..2 * size] == lines[size..] && lines[2 * size..] == [];
    }
  }

  lemma {:induction false} OneRunLeft<T>(less: Less<T>, lines: seq<T>, size: nat)
    requires size > 0 && |lines| <= size
    ensures MergeBlocks(less, lines, size) == lines
  {
  }

  lemma {:induction false} PassIsExact<T(!new)>(less: Less<T>, lines: seq<T>, size: nat)
    requires IsUnstuck(less, lines) && size > 0
    ensures MergeBlocks(less, SortBlocks(less, lines, size), size) == SortBlocks(less, lines, 2 * size)
    decreases |lines|
  {
    if |lines| <= size {
      SortPermutes(less, lines);
    } else if |lines| <= 2 * size {
      var a, b := lines[..size], lines[size..];
      assert lines == a + b;
      SymMergeOfSorted(less, a, b);
      SortPermutes(less, a);
      SortPermutes(less, b);
      hide StableSorted, SymMerge, IsUnstuck;
      PassOverTwo(less, StableSorted(less, a), StableSorted(less, b), size);
    } else {
      var a, b, rest := lines[..size], lines[size..2 * size], lines[2 * size..];
      assert lines == (a + b) + rest && lines[..2 * size] == a + b;
      PartsAreUnstuck(less, a + b, rest);
      hide *;
      PassIsExact(less, rest, size);
      FirstTwoAreExact(less, lines, size);
    }
  }

  lemma {:induction false} FirstTwoAreExact<T(!new)>(less: Less<T>, lines: seq<T>, size: nat)
    requires 0 < size && 2 * size < |lines| && IsUnstuck(less, lines[..2 * size])
    requires MergeBlocks(less, SortBlocks(less, lines[2 * size..], size), size) == SortBlocks(less, lines[2 * size..], 2 * size)
    ensures MergeBlocks(less, SortBlocks(less, lines, size), size) == SortBlocks(less, lines, 2 * size)
  {
    var a, b, rest := lines[..size], lines[size..2 * size], lines[2 * size..];
    assert lines[..2 * size] == a + b;
    SortPermutes(less, a);
    SortPermutes(less, b);
    SortBlocksPermutes(less, rest, size);
    hide StableSorted, SymMerge, IsUnstuck, MergeBlocks;
    SymMergeOfSorted(less, a, b);
    ThreeParts(less, lines, size);
    PassOverMore(less, StableSorted(less, a), StableSorted(less, b), SortBlocks(less, rest, size), size);
  }

  lemma {:induction false} ThreeParts<T>(less: Less<T>, lines: seq<T>, size: nat)
    requires size > 0 && |lines| > 2 * size
    ensures SortBlocks(less, lines, size) == StableSorted(less, lines[..size])
      + (StableSorted(less, lines[size..2 * size]) + SortBlocks(less, lines[2 * size..], size))
  {
    hide StableSorted;
    var more := lines[size..];
    assert more[..size] == lines[size..2 * size] && more[size..] == lines[2 * size..];
  }

  lemma {:induction false} PassOverTwo<T>(less: Less<T>, u: seq<T>, v: seq<T>, size: nat)
    requires size == |u| && 0 < |v| <= size
    ensures MergeBlocks(less, u + v, size) == SymMerge(less, u, v)
  {
    hide SymMerge;
    assert (u + v)[..size] == u && (u + v)[size..] == v;
  }

  lemma {:induction false} PassOverMore<T>(less: Less<T>, u: seq<T>, v: seq<T>, rest: seq<T>, size: nat)
    requires size == |u| == |v| && size > 0 && rest != []
    ensures MergeBlocks(less, u + (v + rest), size) == SymMerge(less, u, v) + MergeBlocks(less, rest, size)
  {
    hide SymMerge;
    var lines := u + (v + rest);
    assert lines[..size] == u && lines[size..2 * size] == v && lines[2 * size..] == rest;
  }

  lemma {:induction false} SortBlocksPermutes<T>(less: Less<T>, lines: seq<T>, size: nat)
    requires size > 0
    ensures multiset(SortBlocks(less, lines, size)) == multiset(lines) && |SortBlocks(less, lines, size)| == |lines|
    decreases |lines|
  {
    hide StableSorted;
    if |lines| <= size {
      SortPermutes(less, lines);
    } else {
      SortPermutes(less, lines[..size]);
      SortBlocksPermutes(less, lines[size..], size);
      assert lines == lines[..size] + lines[size..];
    }
  }

  lemma {:induction false} PassesAreExact<T(!new)>(less: Less<T>, lines: seq<T>, size: nat)
    requires IsUnstuck(less, lines) && size > 0
    ensures MergeAll(less, SortBlocks(less, lines, size), size) == StableSorted(less, lines)
    decreases |lines| - size
  {
    SortBlocksPermutes(less, lines, size);
    if size < |lines| {
      PassIsExact(less, lines, size);
      PassesAreExact(less, lines, 2 * size);
    }
  }

  /** Where no three lines get stuck, block-wise merging gives what insertion gives. */
  lemma {:induction false} MergingIsInserting<T(!new)>(less: Less<T>, lines: seq<T>)
    requires IsAsymmetric(less) && !HasStuckTriple(less, lines)
    ensures SliceSorted(less, lines) == StableSorted(less, lines) && IsOrdered(less, SliceSorted(less, lines))
  {
    PassesAreExact(less, lines, BLOCK);
    SortOrdersExactly(less, lines);
  }

  // ----- what merging keeps, whatever the comparison is

  lemma {:induction false} SymMergeKeeps<T(!new)>(less: Less<T>, u: seq<T>, v: seq<T>)
    ensures multiset(SymMerge(less, u, v)) == multiset(u) + multiset(v)
    ensures forall c, a :: StandsBefore(u, c, a) || StandsBefore(v, c, a) ==> StandsBefore(SymMerge(less, u, v), c, a)
  {
    SymMergeInterleaves(less, u, v);
    InterleavingKeeps(u, v, SymMerge(less, u, v));
  }

  lemma {:induction false} MergeBlocksPermutes<T(!new)>(less: Less<T>, lines: seq<T>, size: nat)
    requires size > 0
    ensures multiset(MergeBlocks(less, lines, size)) == multiset(lines)
    decreases |lines|
  {
    hide SymMerge;
    if |lines| > 2 * size {
      SymMergeKeeps(less, lines[..size], lines[size..2 * size]);
      MergeBlocksPermutes(less, lines[2 * size..], size);
      assert lines == lines[..size] + lines[size..2 * size] + lines[2 * size..];
    } else if |lines| > size {
      SymMergeKeeps(less, lines[..size], lines[size..]);
      assert lines == lines[..size] + lines[size..];
    }
  }

  lemma {:induction false} MergeAllPermutes<T(!new)>(less: Less<T>, lines: seq<T>, size: nat)
    requires size > 0
    ensures multiset(MergeAll(less, lines, size)) == multiset(lines)
    decreases |lines| - size
  {
    if size < |lines| {
      MergeBlocksPermutes(less, lines, size);
      MergeAllPermutes(less, MergeBlocks(less, lines, size), 2 * size);
    }
  }

  /** No line is lost or added. */
  lemma {:induction false} SlicePermutes<T(!new)>(less: Less<T>, lines: seq<T>)
    ensures multiset(SliceSorted(less, lines)) == multiset(lines)
  {
    SortBlocksPermutes(less, lines, BLOCK);
    MergeAllPermutes(less, SortBlocks(less, lines, BLOCK), BLOCK);
  }

  /** Somewhere in one run of `size` lines `c` stands before `a`. */
  ghost predicate InOneRun<T>(lines: seq<T>, size: nat, c: T, a: T)
    requires size > 0
  {
    if |lines| <= size then StandsBefore(lines, c, a)
    else StandsBefore(lines[..size], c, a) || InOneRun(lines[size..], size, c, a)
  }

  lemma {:induction false} PairStaysInRun<T(!new)>(less: Less<T>, lines: seq<T>, size: nat, c: T, a: T)
    requires size > 0 && InOneRun(lines, size, c, a)
    ensures InOneRun(MergeBlocks(less, lines, size), 2 * size, c, a)
    decreases |lines|
  {
    hide StandsBefore, SymMerge;
    if |lines| > 2 * size {
      var u, v, rest := lines[..size], lines[size..2 * size], lines[2 * size..];
      assert lines[size..][..size] == v && lines[size..][size..] == rest;
      SymMergeKeeps(less, u, v);
      var r := MergeBlocks(less, lines, size);
      assert r[..2 * size] == SymMerge(less, u, v) && r[2 * size..] == MergeBlocks(less, rest, size);
      if !StandsBefore(u, c, a) && !StandsBefore(v, c, a) {
        PairStaysInRun(less, rest, size, c, a);
      }
    } else if |lines| > size {
      SymMergeKeeps(less, lines[..size], lines[size..]);
    }
  }

  lemma {:induction false} PairInRunStays<T(!new)>(less: Less<T>, lines: seq<T>, size: nat, c: T, a: T)
    requires size > 0 && InOneRun(lines, size, c, a)
    ensures StandsBefore(MergeAll(less, lines, size), c, a)
    decreases |lines| - size
  {
    if size < |lines| {
      PairStaysInRun(less, lines, size, c, a);
      PairInRunStays(less, MergeBlocks(less, lines, size), 2 * size, c, a);
    }
  }

  // ----- exactly when the result is ordered

  /** Three lines of one block get stuck. */
  ghost predicate HasStuckBlock<T>(less: Less<T>, lines: seq<T>, size: nat)
    requires size > 0
  {
    if |lines| <= size then HasStuckTriple(less, lines)
    else HasStuckTriple(less, lines[..size]) || HasStuckBlock(less, lines[size..], size)
  }

  lemma {:induction false} StuckBlockIsWrong<T(!new)>(less: Less<T>, lines: seq<T>, size: nat) returns (c: T, a: T)
    requires IsAsymmetric(less) && size > 0 && HasStuckBlock(less, lines, size)
    ensures less(a, c) && InOneRun(SortBlocks(less, lines, size), size, c, a)
    decreases |lines|
  {
    SortBlocksPermutes(less, lines, size);
    if |lines| <= size {
      c, a := StuckIsWrong(less, lines);
    } else {
      var u, rest := StableSorted(less, lines[..size]), SortBlocks(less, lines[size..], size);
      SortPermutes(less, lines[..size]);
      assert (u + rest)[..size] == u && (u + rest)[size..] == rest;
      if HasStuckTriple(less, lines[..size]) {
        c, a := StuckIsWrong(less, lines[..size]);
      } else {
        c, a := StuckBlockIsWrong(less, lines[size..], size);
      }
    }
  }

  lemma {:induction false} StuckIsWrong<T(!new)>(less: Less<T>, lines: seq<T>) returns (c: T, a: T)
    requires IsAsymmetric(less) && HasStuckTriple(less, lines)
    ensures less(a, c) && StandsBefore(StableSorted(less, lines), c, a)
  {
    SortOrdersExactly(less, lines);
    var s := StableSorted(less, lines);
    var i, j :| 0 <= i < j < |s| && less(s[j], s[i]);
    c, a := s[i], s[j];
  }

  /** Three lines that get stuck in a block spoil the result, for both keep their order. */
  lemma {:induction false} StuckBlockSpoils<T(!new)>(less: Less<T>, lines: seq<T>)
    requires IsAsymmetric(less) && HasStuckBlock(less, lines, BLOCK)
    ensures !IsOrdered(less, SliceSorted(less, lines))
  {
    var c, a := StuckBlockIsWrong(less, lines, BLOCK);
    PairInRunStays(less, SortBlocks(less, lines, BLOCK), BLOCK, c, a);
  }

  /** Up to twenty lines the result is ordered exactly if no three lines get stuck; beyond, it is
      if none do, and it is not if three of one block do. */
  lemma {:induction false} SliceOrdersExactly<T(!new)>(less: Less<T>, lines: seq<T>)
    requires IsAsymmetric(less)
    ensures |lines| <= BLOCK ==> (IsOrdered(less, SliceSorted(less, lines)) <==> !HasStuckTriple(less, lines))
    ensures !HasStuckTriple(less, lines) ==> IsOrdered(less, SliceSorted(less, lines))
    ensures HasStuckBlock(less, lines, BLOCK) ==> !IsOrdered(less, SliceSorted(less, lines))
  {
    if !HasStuckTriple(less, lines) {
      MergingIsInserting(less, lines);
    }
    if HasStuckBlock(less, lines, BLOCK) {
      StuckBlockSpoils(less, lines);
    }
  }

  /** At every length, all arrangements of some lines come out ordered exactly if the comparison
      is consistent on them. */
  lemma {:induction false} OrdersEveryArrangement<T(!new)>(less: Less<T>, lines: seq<T>)
    requires IsAsymmetric(less)
    ensures (forall arranged :: multiset(arranged) == multiset(lines) ==> IsOrdered(less, SliceSorted(less, arranged)))
      <==> IsConsistent(less, lines)
  {
    if IsConsistent(less, lines) {
      forall arranged | multiset(arranged) == multiset(lines) ensures IsOrdered(less, SliceSorted(less, arranged)) {
        SameElements(arranged, lines);
        ConsistentIsUnstuck(less, arranged);
        MergingIsInserting(less, arranged);
      }
    } else {
      var a, b, c :| a in lines && b in lines && c in lines && less(a, c) && !less(a, b) && !less(b, c);
      var rest := ToFront(lines, c, b, a);
      var arranged := [c, b, a] + rest;
      StuckAtFront(less, arranged);
      StuckBlockSpoils(less, arranged);
      assert multiset(arranged) == multiset(lines) && !IsOrdered(less, SliceSorted(less, arranged));
    }
  }

  lemma {:induction false} ConsistentIsUnstuck<T(!new)>(less: Less<T>, lines: seq<T>)
    requires IsAsymmetric(less) && IsConsistent(less, lines)
    ensures !HasStuckTriple(less, lines)
  {
    forall i, j, k | 0 <= i < j < k < |lines| ensures !IsStuck(less, lines[i], lines[j], lines[k]) {
      assert lines[i] in lines && lines[j] in lines && lines[k] in lines;
    }
  }

  /** Where the comparison is a weak order, merging gives what insertion gives. */
  lemma {:induction false} WeakOrderIsInserting<T(!new)>(less: Less<T>, good: T -> bool, lines: seq<T>)
    requires IsAsymmetric(less) && IsWeakOrder(less, good) && AreGood(good, lines)
    ensures SliceSorted(less, lines) == StableSorted(less, lines)
  {
    forall x | x in lines ensures good(x) {
      var i :| 0 <= i < |lines| && lines[i] == x;
    }
    ConsistentIsUnstuck(less, lines);
    MergingIsInserting(less, lines);
  }

  lemma {:induction false} StuckAtFront<T>(less: Less<T>, lines: seq<T>)
    requires |lines| > 2 && IsStuck(less, lines[0], lines[1], lines[2])
    ensures HasStuckBlock(less, lines, BLOCK)
  {
    var block := if |lines| <= BLOCK then lines else lines[..BLOCK];
    assert block[0] == lines[0] && block[1] == lines[1] && block[2] == lines[2];
  }

  /** Beyond one block lines that get stuck may still come out ordered: when merging meets them
      by leaps, here nineteen times `two`, one that is equivalent to all, and `one`. */
  lemma {:induction false} MergingMayFreeStuck<T(!new)>(less: Less<T>, two: T, nan: T, one: T)
    requires IsAsymmetric(less) && less(one, two)
    requires AreEquivalent(less, nan, one) && AreEquivalent(less, nan, two)
    ensures var lines := seq(19, _ => two) + [nan, one];
      HasStuckTriple(less, lines) && SliceSorted(less, lines) == [one] + seq(19, _ => two) + [nan]
      && IsOrdered(less, SliceSorted(less, lines))
  {
    var block := seq(19, _ => two) + [nan];
    LastTwoAreStuck(less, block, two, nan, one);
    assert seq(19, _ => two) + [nan, one] == block + [one];
    assert [one] + block == [one] + seq(19, _ => two) + [nan];
    hide *;
    NeighboursStay(less, [one]);
    OneLineMore(less, block, one);
    OneLeapsForward(less, block, one);
    FrontIsOrdered(less, two, nan, one);
  }

  lemma {:induction false} LastTwoAreStuck<T(!new)>(less: Less<T>, block: seq<T>, two: T, nan: T, one: T)
    requires IsAsymmetric(less) && less(one, two) && block == seq(19, _ => two) + [nan]
    requires AreEquivalent(less, nan, one) && AreEquivalent(less, nan, two)
    ensures |block| == BLOCK && HasStuckTriple(less, block + [one]) && StableSorted(less, block) == block
    ensures forall h :: 0 <= h <= 10 ==> less(one, block[h])
  {
    var lines := block + [one];
    assert lines[0] == two && lines[19] == nan && lines[20] == one;
    StuckTripleIs(less, lines, 0, 19, 20);
    assert forall h :: 0 <= h < 19 ==> block[h] == two;
    NeighboursStay(less, block);
  }

  lemma {:induction false} StuckTripleIs<T>(less: Less<T>, lines: seq<T>, i: nat, j: nat, k: nat)
    requires i < j < k < |lines| && IsStuck(less, lines[i], lines[j], lines[k])
    ensures HasStuckTriple(less, lines)
  {
  }

  lemma {:induction false} FrontIsOrdered<T(!new)>(less: Less<T>, two: T, nan: T, one: T)
    requires IsAsymmetric(less) && less(one, two)
    requires AreEquivalent(less, nan, one) && AreEquivalent(less, nan, two)
    ensures IsOrdered(less, [one] + (seq(19, _ => two) + [nan]))
  {
    var lines := [one] + (seq(19, _ => two) + [nan]);
    assert forall h :: 1 <= h < 20 ==> lines[h] == two;
    assert lines[0] == one && lines[20] == nan;
  }

  /** One block and one line more: they are merged once. */
  lemma {:induction false} OneLineMore<T>(less: Less<T>, block: seq<T>, one: T)
    requires |block| == BLOCK && StableSorted(less, block) == block && StableSorted(less, [one]) == [one]
    ensures SliceSorted(less, block + [one]) == SymMerge(less, block, [one])
  {
    hide StableSorted, SymMerge;
    var lines := block + [one];
    assert lines[..BLOCK] == block && lines[BLOCK..] == [one];
    assert SortBlocks(less, lines, BLOCK) == lines;
    PassOverTwo(less, block, [one], BLOCK);
    assert MergeAll(less, lines, BLOCK) == MergeAll(less, MergeBlocks(less, lines, BLOCK), 2 * BLOCK);
  }

  /** The search for the place of `one` looks at the middle only, and then to the left. */
  lemma {:induction false} OneLeapsForward<T>(less: Less<T>, block: seq<T>, one: T)
    requires |block| == BLOCK && forall h :: 0 <= h <= 10 ==> less(one, block[h])
    ensures SymMerge(less, block, [one]) == [one] + block
  {
    hide SymMerge, Bisect;
    var p := LastPasses(less, block, one);
    BisectStep(p, 0, BLOCK, 10);
    assert Bisect(p, 0, 10) == 0;
    OneSecond(less, block, [one]);
    assert block[..0] + [one] + block[0..] == [one] + block;
  }
}
