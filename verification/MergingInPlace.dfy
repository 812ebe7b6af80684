/** `sort.SliceStable` of Go's library, in place. */
module MergingInPlace {
  import opened Orders
  import opened Merging

  // ----- insertion

  /** `insertionSort`. */
  method InsertionSort<T>(a: array<T>, less: Less<T>, lo: nat, hi: nat)
    requires lo <= hi <= a.Length
    modifies a
    ensures a[lo..hi] == StableSorted(less, old(a[lo..hi]))
    ensures forall k :: 0 <= k < lo || hi <= k < a.Length ==> a[k] == old(a[k])
  {
    hide StableSorted;
    ghost var was := a[lo..hi];
    if lo < hi {
      OneIsSorted(less, was[..1]);
      for i := lo + 1 to hi
        invariant a[lo..i] == StableSorted(less, was[..i - lo])
        invariant forall k :: 0 <= k < lo || i <= k < a.Length ==> a[k] == old(a[k])
      {
        OneMoreSorted(less, was, i - lo);
        assert was[i - lo] == a[i];
        MoveIntoPlace(a, less, lo, i);
      }
      assert was[..hi - lo] == was;
    } else {
      NoneIsSorted(less, was);
    }
  }

  lemma {:induction false} OneIsSorted<T>(less: Less<T>, lines: seq<T>)
    requires |lines| == 1
    ensures StableSorted(less, lines) == lines
  {
    assert lines[..0] == [] && lines == [lines[0]];
  }

  /** The line at `i` has moved left to `j`, past the lines between. */
  ghost predicate HasMovedLeft<T>(was: seq<T>, now: seq<T>, i: nat, j: nat)
  {
    && j <= i < |was| == |now| && now[j] == was[i]
    && (forall k :: j < k <= i ==> now[k] == was[k - 1])
    && (forall k :: 0 <= k < j || i < k < |now| ==> now[k] == was[k])
  }

  lemma {:induction false} MovedLeft<T>(was: seq<T>, now: seq<T>, lo: nat, i: nat, j: nat)
    requires HasMovedLeft(was, now, i, j) && lo <= j
    ensures now[lo..i + 1] == was[lo..i][..j - lo] + [was[i]] + was[lo..i][j - lo..]
    ensures forall k :: 0 <= k < lo || i < k < |now| ==> now[k] == was[k]
  {
    assert now[lo..i + 1] == now[lo..j] + [now[j]] + now[j + 1..i + 1];
    assert was[lo..i][..j - lo] == now[lo..j];
    assert was[lo..i][j - lo..] == now[j + 1..i + 1];
  }

  lemma {:induction false} HasNotMoved<T>(was: seq<T>, i: nat)
    requires i < |was|
    ensures HasMovedLeft(was, was, i, i)
  {
  }

  lemma {:induction false} StandsAt<T>(was: seq<T>, now: seq<T>, lo: nat, i: nat, j: nat)
    requires HasMovedLeft(was, now, i, j) && lo <= j
    ensures j <= i < |was| == |now| && now[j] == was[i] && (j > lo ==> now[j - 1] == was[lo..i][j - lo - 1])
  {
  }

  lemma {:induction false} MovesOn<T>(was: seq<T>, now: seq<T>, next: seq<T>, i: nat, j: nat)
    requires HasMovedLeft(was, now, i, j) && 0 < j <= i < |now| && next == now[j := now[j - 1]][j - 1 := now[j]]
    ensures HasMovedLeft(was, next, i, j - 1)
  {
  }

  /** The inner loop: swaps the line at `i` leftwards. */
  method MoveIntoPlace<T>(a: array<T>, less: Less<T>, lo: nat, i: nat)
    requires lo <= i < a.Length
    modifies a
    ensures a[lo..i + 1] == Insert(less, old(a[lo..i]), old(a[i]))
    ensures forall k :: 0 <= k < lo || i < k < a.Length ==> a[k] == old(a[k])
  {
    hide *;
    ghost var was := a[..];
    ghost var s, x := was[lo..i], was[i];
    var j := i;
    HasNotMoved(was, i);
    assert s[..i - lo] == s && s[i - lo..] == [];
    while j > lo && less(a[j], a[j - 1])
      invariant lo <= j <= i && HasMovedLeft(was, a[..], i, j)
      invariant Insert(less, s, x) == Insert(less, s[..j - lo], x) + s[j - lo..]
    {
      ghost var now := a[..];
      StandsAt(was, now, lo, i, j);
      InsertStep(less, s, x, j - lo);
      a[j], a[j - 1] := a[j - 1], a[j];
      MovesOn(was, now, a[..], i, j);
      j := j - 1;
    }
    StandsAt(was, a[..], lo, i, j);
    InsertHere(less, s, x, j - lo);
    MovedLeft(was, a[..], lo, i, j);
    assert a[..][lo..i + 1] == a[lo..i + 1];
  }

  lemma {:induction false} InsertHere<T>(less: Less<T>, s: seq<T>, x: T, j: nat)
    requires j <= |s| && (j > 0 ==> !less(x, s[j - 1]))
    ensures Insert(less, s[..j], x) == s[..j] + [x]
  {
  }

  lemma {:induction false} InsertStep<T>(less: Less<T>, s: seq<T>, x: T, j: nat)
    requires 0 < j <= |s| && less(x, s[j - 1])
    ensures Insert(less, s[..j], x) + s[j..] == Insert(less, s[..j - 1], x) + s[j - 1..]
  {
    assert s[..j][..j - 1] == s[..j - 1];
    assert s[j - 1..] == [s[j - 1]] + s[j..];
  }

  // ----- rotation

  /** The stretches of `n` lines from `x` and from `y` on have changed places. */
  ghost predicate AreSwapped<T>(was: seq<T>, now: seq<T>, x: nat, y: nat, n: nat)
  {
    && x + n <= y && y + n <= |was| == |now|
    && (forall k :: x <= k < x + n ==> now[k] == was[k + y - x])
    && (forall k :: y <= k < y + n ==> now[k] == was[k - y + x])
    && (forall k :: 0 <= k < |now| && !(x <= k < x + n) && !(y <= k < y + n) ==> now[k] == was[k])
  }

  /** `swapRange`. */
  method SwapRange<T>(a: array<T>, x: nat, y: nat, n: nat)
    requires x + n <= y && y + n <= a.Length
    modifies a
    ensures AreSwapped(old(a[..]), a[..], x, y, n)
  {
    for i := 0 to n
      invariant AreSwapped(old(a[..]), a[..], x, y, i)
    {
      a[x + i], a[y + i] := a[y + i], a[x + i];
    }
  }

  /** What is left to do: the stretches of `i` lines before `m` and of `j` from `m` on shall change
      places, and all around them is final. */
  ghost predicate IsRotating<T>(now: seq<T>, goal: seq<T>, m: nat, i: nat, j: nat)
  {
    && |now| == |goal| && i <= m && m + j <= |now|
    && (forall k :: 0 <= k < m - i || m + j <= k < |now| ==> now[k] == goal[k])
    && (forall k :: m <= k < m + j ==> now[k] == goal[k - i])
    && (forall k :: m - i <= k < m ==> now[k] == goal[k + j])
  }

  /** `rotate`: the stretches on both sides of `m` change places. */
  method Rotate<T>(a: array<T>, lo: nat, m: nat, hi: nat)
    requires lo < m < hi <= a.Length
    modifies a
    ensures a[..] == old(a[..lo] + a[m..hi] + a[lo..m] + a[hi..])
  {
    hide AreSwapped, IsRotating;
    ghost var goal := a[..lo] + a[m..hi] + a[lo..m] + a[hi..];
    var i, j := m - lo, hi - m;
    StartRotating(a[..], goal, lo, m, hi);
    while i != j
      invariant 0 < i <= m && 0 < j <= a.Length - m && IsRotating(a[..], goal, m, i, j)
      decreases i + j
    {
      i, j := TurnOnce(a, m, i, j, goal);
    }
    ghost var now := a[..];
    SwapRange(a, m - i, m, i);
    EndRotating(now, a[..], goal, m, i);
  }

  /** One turn of the loop: the shorter stretch goes to its place. */
  method TurnOnce<T>(a: array<T>, m: nat, i: nat, j: nat, ghost goal: seq<T>) returns (i': nat, j': nat)
    requires 0 < i <= m && 0 < j <= a.Length - m && i != j && IsRotating(a[..], goal, m, i, j)
    modifies a
    ensures 0 < i' <= i && 0 < j' <= j && i' + j' < i + j && IsRotating(a[..], goal, m, i', j')
  {
    hide *;
    ghost var now := a[..];
    if i > j {
      SwapRange(a, m - i, m, j);
      LongerLeft(now, a[..], goal, m, i, j);
      return i - j, j;
    } else {
      SwapRange(a, m - i, m + j - i, i);
      LongerRight(now, a[..], goal, m, i, j);
      return i, j - i;
    }
  }

  lemma {:induction false} StartRotating<T>(now: seq<T>, goal: seq<T>, lo: nat, m: nat, hi: nat)
    requires lo < m < hi <= |now| && goal == now[..lo] + now[m..hi] + now[lo..m] + now[hi..]
    ensures IsRotating(now, goal, m, m - lo, hi - m)
  {
  }

  lemma {:induction false} LongerLeft<T>(was: seq<T>, now: seq<T>, goal: seq<T>, m: nat, i: nat, j: nat)
    requires IsRotating(was, goal, m, i, j) && 0 < j < i && AreSwapped(was, now, m - i, m, j)
    ensures IsRotating(now, goal, m, i - j, j)
  {
  }

  lemma {:induction false} LongerRight<T>(was: seq<T>, now: seq<T>, goal: seq<T>, m: nat, i: nat, j: nat)
    requires IsRotating(was, goal, m, i, j) && 0 < i < j && AreSwapped(was, now, m - i, m + j - i, i)
    ensures IsRotating(now, goal, m, i, j - i)
  {
  }

  lemma {:induction false} EndRotating<T>(was: seq<T>, now: seq<T>, goal: seq<T>, m: nat, i: nat)
    requires IsRotating(was, goal, m, i, i) && AreSwapped(was, now, m - i, m, i)
    ensures now == goal
  {
  }

  // ----- merging

  /** `symMerge`: the runs before and from `m` on are merged. */
  method SymMergeInPlace<T>(a: array<T>, less: Less<T>, lo: nat, m: nat, hi: nat)
    requires lo < m < hi <= a.Length
    modifies a
    ensures a[lo..hi] == SymMerge(less, old(a[lo..m]), old(a[m..hi]))
    ensures forall k :: 0 <= k < lo || hi <= k < a.Length ==> a[k] == old(a[k])
    decreases hi - lo, 1
  {
    hide *;
    if m - lo == 1 {
      InsertFirst(a, less, lo, m, hi);
    } else if hi - m == 1 {
      InsertSecond(a, less, lo, m, hi);
    } else {
      MergeHalves(a, less, lo, m, hi);
    }
  }

  /** Two runs of more than one line. */
  method MergeHalves<T>(a: array<T>, less: Less<T>, lo: nat, m: nat, hi: nat)
    requires lo + 1 < m && m + 1 < hi <= a.Length
    modifies a
    ensures a[lo..hi] == SymMerge(less, old(a[lo..m]), old(a[m..hi]))
    ensures forall k :: 0 <= k < lo || hi <= k < a.Length ==> a[k] == old(a[k])
    decreases hi - lo, 0
  {
    hide *;
    ghost var u, v := a[lo..m], a[m..hi];
    var mid := (lo + hi) / 2;
    SameHalf(lo, m, hi);
    Halves(less, u, v);
    var start, end := ExchangeMiddle(a, less, lo, m, hi);
    ghost var before := a[..];
    MergeHalf(a, less, lo, start, mid);
    ghost var between := a[..];
    SliceStays(before, between, lo, mid, mid, end);
    SliceStays(before, between, lo, mid, end, hi);
    MergeHalf(a, less, mid, end, hi);
    SliceStays(between, a[..], mid, hi, lo, mid);
    InTwo(a[..], lo, mid, hi);
  }

  /** What stands beside a changed stretch stays. */
  lemma {:induction false} SliceStays<T>(was: seq<T>, now: seq<T>, lo: nat, hi: nat, x: nat, y: nat)
    requires lo <= hi <= |was| == |now| && forall k :: 0 <= k < lo || hi <= k < |now| ==> now[k] == was[k]
    requires x <= y <= |now| && (y <= lo || hi <= x)
    ensures now[x..y] == was[x..y]
  {
  }

  lemma {:induction false} InTwo<T>(now: seq<T>, lo: nat, mid: nat, hi: nat)
    requires lo <= mid <= hi <= |now|
    ensures now[lo..hi] == now[lo..mid] + now[mid..hi]
  {
  }

  /** One half, if both runs reach into it. */
  method MergeHalf<T>(a: array<T>, less: Less<T>, lo: nat, m: nat, hi: nat)
    requires lo <= m <= hi <= a.Length
    modifies a
    ensures a[lo..hi] == SymMerge(less, old(a[lo..m]), old(a[m..hi]))
    ensures forall k :: 0 <= k < lo || hi <= k < a.Length ==> a[k] == old(a[k])
    decreases hi - lo, 2
  {
    hide *;
    if lo < m < hi {
      SymMergeInPlace(a, less, lo, m, hi);
    } else {
      OnlyOneRun(less, a[lo..m], a[m..hi]);
      InTwo(a[..], lo, m, hi);
    }
  }

  /** The larger lines of the left half change places with the smaller ones of the right half. */
  method ExchangeMiddle<T>(a: array<T>, less: Less<T>, lo: nat, m: nat, hi: nat) returns (start: nat, end: nat)
    requires lo < m < hi <= a.Length
    modifies a
    ensures var u, v, mid := old(a[lo..m]), old(a[m..hi]), (lo + hi) / 2; var k := Cut(less, u, v); var e := mid - lo - k;
      && lo <= start <= mid <= end <= hi && start - lo == k
      && a[lo..start] == u[..k] && a[start..mid] == v[..e] && a[mid..end] == u[k..] && a[end..hi] == v[e..]
    ensures forall k :: 0 <= k < lo || hi <= k < a.Length ==> a[k] == old(a[k])
  {
    hide *;
    ghost var was := a[..];
    var mid := (lo + hi) / 2;
    SameHalf(lo, m, hi);
    start := SearchCut(a, less, lo, m, hi);
    end := mid + m - start;
    if start < m < end {
      Rotate(a, start, m, end);
    } else {
      NothingToRotate(was, start, m, end);
    }
    FourParts(was, a[..], lo, start, mid, m, end, hi);
  }

  lemma {:induction false} NothingToRotate<T>(was: seq<T>, start: nat, m: nat, end: nat)
    requires start <= m <= end <= |was| && !(start < m < end)
    ensures was == was[..start] + was[m..end] + was[start..m] + was[end..]
  {
  }

  lemma {:induction false} FourParts<T>(was: seq<T>, now: seq<T>, lo: nat, start: nat, mid: nat, m: nat, end: nat, hi: nat)
    requires lo <= start <= mid <= end <= hi <= |was| && start <= m <= end && end == mid + m - start
    requires now == was[..start] + was[m..end] + was[start..m] + was[end..]
    ensures |now| == |was| && now[lo..start] == was[lo..m][..start - lo] && now[end..hi] == was[m..hi][end - m..]
    ensures now[start..mid] == was[m..hi][..end - m] && now[mid..end] == was[lo..m][start - lo..]
    ensures forall k :: 0 <= k < lo || hi <= k < |was| ==> now[k] == was[k]
  {
    assert was[m..hi][..end - m] == was[m..end] && was[lo..m][start - lo..] == was[start..m];
    assert now[start..mid] == was[m..end] && now[mid..end] == was[start..m];
  }

  /** The line at `i` has moved right to `j`, past the lines between. */
  ghost predicate HasMovedRight<T>(was: seq<T>, now: seq<T>, i: nat, j: nat)
  {
    && i <= j < |was| == |now| && now[j] == was[i]
    && (forall k :: i <= k < j ==> now[k] == was[k + 1])
    && (forall k :: 0 <= k < i || j < k < |now| ==> now[k] == was[k])
  }

  lemma {:induction false} MovedRight<T>(was: seq<T>, now: seq<T>, lo: nat, j: nat, hi: nat)
    requires HasMovedRight(was, now, lo, j) && j < hi <= |was|
    ensures now[lo..hi] == was[lo + 1..hi][..j - lo] + [was[lo]] + was[lo + 1..hi][j - lo..]
    ensures forall k :: 0 <= k < lo || hi <= k < |now| ==> now[k] == was[k]
  {
    assert now[lo..hi] == now[lo..j] + [now[j]] + now[j + 1..hi];
    assert was[lo + 1..hi][..j - lo] == now[lo..j];
    assert was[lo + 1..hi][j - lo..] == now[j + 1..hi];
  }

  /** The only line of the first run is swapped into the second. */
  method InsertFirst<T>(a: array<T>, less: Less<T>, lo: nat, m: nat, hi: nat)
    requires m == lo + 1 < hi <= a.Length
    modifies a
    ensures a[lo..hi] == SymMerge(less, old(a[lo..m]), old(a[m..hi]))
    ensures forall k :: 0 <= k < lo || hi <= k < a.Length ==> a[k] == old(a[k])
  {
    hide *;
    ghost var was := a[..];
    var i := SearchSecond(a, less, lo, m, hi);
    MoveRight(a, lo, i - 1);
    MovedRight(was, a[..], lo, i - 1, hi);
    FirstIsIn(less, was, a[..], lo, i, hi);
  }

  lemma {:induction false} FirstIsIn<T>(less: Less<T>, was: seq<T>, now: seq<T>, lo: nat, i: nat, hi: nat)
    requires lo < i <= hi <= |was| == |now| && lo + 1 < hi
    requires i - lo - 1 == Bisect(FirstPasses(less, was[lo + 1..hi], was[lo]), 0, hi - lo - 1)
    requires now[lo..hi] == was[lo + 1..hi][..i - 1 - lo] + [was[lo]] + was[lo + 1..hi][i - 1 - lo..]
    ensures now[lo..hi] == SymMerge(less, was[lo..lo + 1], was[lo + 1..hi])
  {
    hide *;
    assert was[lo..lo + 1] == [was[lo]];
    OneFirst(less, was[lo..lo + 1], was[lo + 1..hi]);
  }

  /** The only line of the second run is swapped into the first. */
  method InsertSecond<T>(a: array<T>, less: Less<T>, lo: nat, m: nat, hi: nat)
    requires lo + 1 < m && hi == m + 1 <= a.Length
    modifies a
    ensures a[lo..hi] == SymMerge(less, old(a[lo..m]), old(a[m..hi]))
    ensures forall k :: 0 <= k < lo || m < k < a.Length ==> a[k] == old(a[k])
  {
    hide *;
    ghost var was := a[..];
    var i := SearchFirst(a, less, lo, m);
    MoveLeft(a, i, m);
    MovedLeft(was, a[..], lo, m, i);
    SecondIsIn(less, was, a[..], lo, i, m);
  }

  lemma {:induction false} SecondIsIn<T>(less: Less<T>, was: seq<T>, now: seq<T>, lo: nat, i: nat, m: nat)
    requires lo <= i <= m < |was| == |now| && lo + 1 < m
    requires i - lo == Bisect(LastPasses(less, was[lo..m], was[m]), 0, m - lo)
    requires now[lo..m + 1] == was[lo..m][..i - lo] + [was[m]] + was[lo..m][i - lo..]
    ensures now[lo..m + 1] == SymMerge(less, was[lo..m], was[m..m + 1])
  {
    hide *;
    assert was[m..m + 1] == [was[m]];
    OneSecond(less, was[lo..m], was[m..m + 1]);
  }

  /** Where the only line of the first run belongs in the second. */
  method SearchSecond<T>(a: array<T>, less: Less<T>, lo: nat, m: nat, hi: nat) returns (i: nat)
    requires lo < m < hi <= a.Length
    ensures m <= i <= hi && i - m == Bisect(FirstPasses(less, a[m..hi], a[lo]), 0, hi - m)
  {
    hide *;
    i := m;
    var j := hi;
    ghost var p := FirstPasses(less, a[m..hi], a[lo]);
    while i < j
      invariant m <= i <= j <= hi && Bisect(p, i - m, j - m) == Bisect(p, 0, hi - m)
    {
      var h := (i + j) / 2;
      BisectStep(p, i - m, j - m, h - m);
      FirstPassesAt(less, a[m..hi], a[lo], h - m);
      assert a[m..hi][h - m] == a[h];
      if less(a[h], a[lo]) {
        i := h + 1;
      } else {
        j := h;
      }
    }
  }

  /** Where the only line of the second run belongs in the first. */
  method SearchFirst<T>(a: array<T>, less: Less<T>, lo: nat, m: nat) returns (i: nat)
    requires lo < m < a.Length
    ensures lo <= i <= m && i - lo == Bisect(LastPasses(less, a[lo..m], a[m]), 0, m - lo)
  {
    hide *;
    i := lo;
    var j := m;
    ghost var p := LastPasses(less, a[lo..m], a[m]);
    while i < j
      invariant lo <= i <= j <= m && Bisect(p, i - lo, j - lo) == Bisect(p, 0, m - lo)
    {
      var h := (i + j) / 2;
      BisectStep(p, i - lo, j - lo, h - lo);
      LastPassesAt(less, a[lo..m], a[m], h - lo);
      assert a[lo..m][h - lo] == a[h];
      if !less(a[m], a[h]) {
        i := h + 1;
      } else {
        j := h;
      }
    }
  }

  lemma {:induction false} FirstPassesAt<T>(less: Less<T>, v: seq<T>, x: T, h: nat)
    requires h < |v|
    ensures FirstPasses(less, v, x)(h) <==> less(v[h], x)
  {
  }

  lemma {:induction false} LastPassesAt<T>(less: Less<T>, u: seq<T>, y: T, h: nat)
    requires h < |u|
    ensures LastPasses(less, u, y)(h) <==> !less(y, u[h])
  {
  }

  /** How far the first run stays in the left half. */
  method SearchCut<T>(a: array<T>, less: Less<T>, lo: nat, m: nat, hi: nat) returns (start: nat)
    requires lo < m < hi <= a.Length
    ensures lo <= start && start - lo == Cut(less, a[lo..m], a[m..hi])
  {
    hide *;
    var mid := (lo + hi) / 2;
    SameHalf(lo, m, hi);
    var n := mid + m;
    var from, to := lo, m;
    if m > mid {
      from, to := n - hi, mid;
    }
    CutIsSearch(less, a[lo..m], a[m..hi], mid - lo, from - lo, to - lo);
    start := SearchStays(a, less, lo, m, hi, mid, from, to);
  }

  lemma {:induction false} SameHalf(lo: int, m: int, hi: int)
    ensures (lo + hi) / 2 - lo == (m - lo + (hi - m)) / 2
  {
  }

  method SearchStays<T>(a: array<T>, less: Less<T>, lo: nat, m: nat, hi: nat, mid: nat, from: nat, to: nat) returns (start: nat)
    requires lo < m < hi <= a.Length && lo <= from <= to <= m && to <= mid && mid + m - hi <= from
    ensures lo <= start && start - lo == Bisect(Stays(less, a[lo..m], a[m..hi], mid - lo), from - lo, to - lo)
  {
    hide *;
    var p, r := mid + m - 1, to;
    start := from;
    ghost var u, v, half := a[lo..m], a[m..hi], mid - lo;
    ghost var stays := Stays(less, u, v, half);
    while start < r
      invariant from <= start <= r <= to
      invariant Bisect(stays, start - lo, r - lo) == Bisect(stays, from - lo, to - lo)
    {
      var c := (start + r) / 2;
      BisectStep(stays, start - lo, r - lo, c - lo);
      StaysAt(less, u, v, half, c - lo);
      assert u[c - lo] == a[c] && v[p - c - m] == a[p - c];
      if !less(a[p - c], a[c]) {
        start := c + 1;
      } else {
        r := c;
      }
    }
  }

  lemma {:induction false} CutIsSearch<T>(less: Less<T>, u: seq<T>, v: seq<T>, mid: int, start: int, r: int)
    requires mid == (|u| + |v|) / 2
    requires if |u| > mid then start == mid - |v| && r == mid else start == 0 && r == |u|
    ensures start <= r && Cut(less, u, v) == Bisect(Stays(less, u, v, mid), start, r)
  {
  }

  lemma {:induction false} StaysAt<T>(less: Less<T>, u: seq<T>, v: seq<T>, mid: int, c: nat)
    requires c < |u| && 0 <= mid - 1 - c < |v|
    ensures Stays(less, u, v, mid)(c) <==> !less(v[mid - 1 - c], u[c])
  {
  }

  /** Swaps the line at `x` rightwards, up to `y`. */
  method MoveRight<T>(a: array<T>, x: nat, y: nat)
    requires x <= y < a.Length
    modifies a
    ensures HasMovedRight(old(a[..]), a[..], x, y)
  {
    for k := x to y
      invariant HasMovedRight(old(a[..]), a[..], x, k)
    {
      a[k], a[k + 1] := a[k + 1], a[k];
    }
  }

  /** Swaps the line at `y` leftwards, down to `x`. */
  method MoveLeft<T>(a: array<T>, x: nat, y: nat)
    requires x <= y < a.Length
    modifies a
    ensures HasMovedLeft(old(a[..]), a[..], y, x)
  {
    for k := y downto x
      invariant HasMovedLeft(old(a[..]), a[..], y, k)
    {
      a[k], a[k + 1] := a[k + 1], a[k];
    }
  }

  // ----- all of it

  /** `sort.SliceStable`. */
  method SliceStable<T>(a: array<T>, less: Less<T>)
    modifies a
    ensures a[..] == SliceSorted(less, old(a[..]))
  {
    hide SortBlocks, MergeAll, MergeBlocks;
    SortAllBlocks(a, less, BLOCK);
    var size := BLOCK;
    while size < a.Length
      invariant size > 0 && MergeAll(less, a[..], size) == SliceSorted(less, old(a[..]))
    {
      OnePassMore(less, a[..], size);
      MergePass(a, less, size);
      size := size * 2;
    }
    NoPassMore(less, a[..], size);
  }

  lemma {:induction false} OnePassMore<T>(less: Less<T>, lines: seq<T>, size: nat)
    requires 0 < size < |lines|
    ensures MergeAll(less, lines, size) == MergeAll(less, MergeBlocks(less, lines, size), 2 * size)
  {
  }

  lemma {:induction false} NoPassMore<T>(less: Less<T>, lines: seq<T>, size: nat)
    requires size > 0 && size >= |lines|
    ensures MergeAll(less, lines, size) == lines
  {
  }

  method SortAllBlocks<T>(a: array<T>, less: Less<T>, size: nat)
    requires size > 0
    modifies a
    ensures a[..] == SortBlocks(less, old(a[..]), size)
  {
    hide *;
    ghost var was := a[..];
    var x, y := 0, size;
    assert was[0..] == was && a[..0] == [];
    while y <= a.Length
      invariant y == x + size && x <= a.Length
      invariant a[x..] == was[x..] && SortBlocks(less, was, size) == a[..x] + SortBlocks(less, was[x..], size)
    {
      ghost var now := a[..];
      InsertionSort(a, less, x, y);
      NextBlock(less, was, now, a[..], x, size);
      x := y;
      y := y + size;
    }
    ghost var front := a[..x];
    assert a[x..a.Length] == was[x..];
    InsertionSort(a, less, x, a.Length);
    LastBlock(less, was[x..], size);
    assert a[..x] == front;
    assert a[..] == a[..x] + a[x..a.Length];
  }

  lemma {:induction false} NextBlock<T>(less: Less<T>, was: seq<T>, before: seq<T>, now: seq<T>, x: nat, size: nat)
    requires size > 0 && x + size <= |was| == |before| == |now|
    requires before[x..] == was[x..] && SortBlocks(less, was, size) == before[..x] + SortBlocks(less, was[x..], size)
    requires now[x..x + size] == StableSorted(less, before[x..x + size])
    requires forall k :: 0 <= k < x || x + size <= k < |was| ==> now[k] == before[k]
    ensures now[x + size..] == was[x + size..]
    ensures SortBlocks(less, was, size) == now[..x + size] + SortBlocks(less, was[x + size..], size)
  {
    hide *;
    assert now[x + size..] == before[x..][size..] == was[x..][size..];
    NextOne(before, x, size);
    FirstBlock(less, was[x..], size);
    assert now[..x + size] == before[..x] + now[x..x + size];
  }

  lemma {:induction false} NextOne<T>(lines: seq<T>, x: nat, size: nat)
    requires x + size <= |lines|
    ensures lines[x..][..size] == lines[x..x + size] && lines[x..][size..] == lines[x + size..]
  {
  }

  /** One pass over all neighbouring runs of `size` lines. */
  method MergePass<T>(a: array<T>, less: Less<T>, size: nat)
    requires size > 0
    modifies a
    ensures a[..] == MergeBlocks(less, old(a[..]), size)
  {
    hide *;
    ghost var was := a[..];
    var x, y := 0, 2 * size;
    assert was[0..] == was && a[..0] == [];
    while y <= a.Length
      invariant y == x + 2 * size && x <= a.Length
      invariant a[x..] == was[x..] && MergeBlocks(less, was, size) == a[..x] + MergeBlocks(less, was[x..], size)
    {
      ghost var now := a[..];
      SymMergeInPlace(a, less, x, x + size, y);
      NextRuns(less, was, now, a[..], x, size);
      x := y;
      y := y + 2 * size;
    }
    var m := x + size;
    ghost var now, front := a[..], a[..x];
    if m < a.Length {
      SymMergeInPlace(a, less, x, m, a.Length);
      LastRuns(less, was, now, x, size);
    } else {
      OneRunLeft(less, was[x..], size);
    }
    assert a[..x] == front;
    assert a[..] == a[..x] + a[x..a.Length];
  }

  lemma {:induction false} NextRuns<T>(less: Less<T>, was: seq<T>, before: seq<T>, now: seq<T>, x: nat, size: nat)
    requires size > 0 && x + 2 * size <= |was| == |before| == |now|
    requires before[x..] == was[x..] && MergeBlocks(less, was, size) == before[..x] + MergeBlocks(less, was[x..], size)
    requires now[x..x + 2 * size] == SymMerge(less, before[x..x + size], before[x + size..x + 2 * size])
    requires forall k :: 0 <= k < x || x + 2 * size <= k < |was| ==> now[k] == before[k]
    ensures now[x + 2 * size..] == was[x + 2 * size..]
    ensures MergeBlocks(less, was, size) == now[..x + 2 * size] + MergeBlocks(less, was[x + 2 * size..], size)
  {
    hide *;
    assert now[x + 2 * size..] == before[x..][2 * size..] == was[x..][2 * size..];
    NextTwo(before, x, size);
    FirstRuns(less, was[x..], size);
    assert now[..x + 2 * size] == before[..x] + now[x..x + 2 * size];
  }

  lemma {:induction false} NextTwo<T>(lines: seq<T>, x: nat, size: nat)
    requires x + 2 * size <= |lines|
    ensures lines[x..][..size] == lines[x..x + size] && lines[x..][size..2 * size] == lines[x + size..x + 2 * size]
    ensures lines[x..][2 * size..] == lines[x + 2 * size..]
  {
  }

  lemma {:induction false} LastRuns<T>(less: Less<T>, was: seq<T>, now: seq<T>, x: nat, size: nat)
    requires size > 0 && |was| == |now| && x + size < |was| < x + 2 * size && now[x..] == was[x..]
    ensures MergeBlocks(less, was[x..], size) == SymMerge(less, now[x..x + size], now[x + size..|now|])
  {
    hide SymMerge;
    assert was[x..][..size] == now[x..][..size] == now[x..x + size];
    assert was[x..][size..] == now[x..][size..] == now[x + size..|now|];
  }
}
