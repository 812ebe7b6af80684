/** `sort` (coreutils/text.go): by bytes or by value, reversed, without repeated lines. */
module Sorting {
  import opened Results
  import opened Strings
  import opened Lines
  import opened Orders
  import opened Merging
  import opened MergingInPlace
  import Runs

  // ----- the comparisons

  /** Go's `<` on strings. */
  predicate Before(a: string, b: string)
  {
    b != "" && (a == "" || a[0] < b[0] || (a[0] == b[0] && Before(a[1..], b[1..])))
  }

  /** A `float64`, without rounding. */
  datatype Float = NotANumber | MinusInfinity | Finite(r: real) | PlusInfinity

  predicate Below(a: Float, b: Float)
  {
    match (a, b)
    case (Finite(x), Finite(y)) => x < y
    case (MinusInfinity, Finite(_)) => true
    case (Finite(_), PlusInfinity) => true
    case (MinusInfinity, PlusInfinity) => true
    case _ => false
  }

  /** `strconv.ParseFloat`, which fails on most texts. */
  type Parse = string -> Option<Float>

  predicate NumericBefore(parse: Parse, a: string, b: string)
  {
    var left, right := parse(TrimSpace(a)), parse(TrimSpace(b));
    if left == None || right == None then Before(a, b) else Below(left.value, right.value)
  }

  function LessBy(parse: Parse, numeric: bool): Less<string>
  {
    if numeric then (a, b) => NumericBefore(parse, a, b) else Before
  }

  // ----- the code

  /** What `Sort` does to the lines. */
  function SortedLines(lines: seq<string>, less: Less<string>, reverse: bool, unique: bool): seq<string>
  {
    var sorted := SliceSorted(less, lines);
    var directed := if reverse then Reversed(sorted) else sorted;
    if unique then Runs.Deduped(directed) else directed
  }

  method Sort(text: string, reverse: bool, numeric: bool, unique: bool, parse: Parse) returns (output: string)
    ensures output == JoinLines(SortedLines(SplitLines(text), LessBy(parse, numeric), reverse, unique))
    ensures SplitLines(output) == SortedLines(SplitLines(text), LessBy(parse, numeric), reverse, unique)
  {
    var lines := SplitLines(text);
    var copy := new string[|lines|](i requires 0 <= i < |lines| => lines[i]);
    assert copy[..] == lines;
    SliceStable(copy, LessBy(parse, numeric));
    if reverse {
      ReverseInPlace(copy);
    }
    var sorted := copy[..];
    if unique {
      sorted := Runs.UniqueAdjacent(sorted);
    }
    SortedAreLines(text, LessBy(parse, numeric), reverse, unique);
    SplitOfJoinLines(sorted);
    return JoinLines(sorted);
  }

  /** Sorting gives no line that was not there, and loses none but repeated ones. */
  lemma {:induction false} SortKeepsLines(lines: seq<string>, less: Less<string>, reverse: bool, unique: bool)
    ensures forall line :: line in SortedLines(lines, less, reverse, unique) <==> line in lines
    ensures !unique ==> multiset(SortedLines(lines, less, reverse, unique)) == multiset(lines)
  {
    var sorted := SliceSorted(less, lines);
    SlicePermutes(less, lines);
    ReversePermutes(sorted);
    var directed := if reverse then Reversed(sorted) else sorted;
    SameElements(directed, lines);
    DedupedKeeps(directed);
  }

  lemma {:induction false} DedupedKeeps(lines: seq<string>)
    ensures forall line :: line in Runs.Deduped(lines) <==> line in lines
    ensures lines != [] ==> Runs.Deduped(lines) != [] && Runs.Deduped(lines)[|Runs.Deduped(lines)| - 1] == lines[|lines| - 1]
  {
    if lines != [] {
      var front, last := lines[..|lines| - 1], lines[|lines| - 1];
      DedupedKeeps(front);
      assert lines == front + [last];
    }
  }

  lemma {:induction false} SortedAreLines(text: string, less: Less<string>, reverse: bool, unique: bool)
    ensures AreLines(SortedLines(SplitLines(text), less, reverse, unique))
  {
    SplitAreLines(text);
    SortKeepsLines(SplitLines(text), less, reverse, unique);
    var sorted := SortedLines(SplitLines(text), less, reverse, unique);
    forall i | 0 <= i < |sorted| ensures '\n' !in sorted[i] {
      assert sorted[i] in SplitLines(text);
    }
  }

  // ----- by bytes

  lemma {:induction false} BeforeIsAsymmetric(a: string, b: string)
    requires Before(a, b)
    ensures !Before(b, a)
  {
    if a != "" && a[0] == b[0] { BeforeIsAsymmetric(a[1..], b[1..]); }
  }

  lemma {:induction false} BeforeIsConnected(a: string, b: string)
    ensures a == b || Before(a, b) || Before(b, a)
  {
    if a != "" && b != "" && a[0] == b[0] {
      BeforeIsConnected(a[1..], b[1..]);
      assert a == [a[0]] + a[1..] && b == [b[0]] + b[1..];
    }
  }

  lemma {:induction false} BeforeIsWeak(a: string, b: string, c: string)
    requires Before(a, c)
    ensures Before(a, b) || Before(b, c)
  {
    if a != "" && b != "" && a[0] == b[0] == c[0] { BeforeIsWeak(a[1..], b[1..], c[1..]); }
  }

  lemma {:induction false} BeforeIsTotal()
    ensures IsTotalOrder(Before)
  {
    forall a, b ensures Before(a, b) ==> !Before(b, a) { if Before(a, b) { BeforeIsAsymmetric(a, b); } }
    forall a, b ensures a == b || Before(a, b) || Before(b, a) { BeforeIsConnected(a, b); }
    forall a, b, c ensures Before(a, c) ==> Before(a, b) || Before(b, c) { if Before(a, c) { BeforeIsWeak(a, b, c); } }
  }

  /** One line comes before another if it is a proper start of it, or has the smaller byte where
      they first differ. */
  ghost predicate DiffersBelow(a: string, b: string, k: nat)
  {
    k <= |a| && k < |b| && a[..k] == b[..k] && (k == |a| || a[k] < b[k])
  }

  lemma {:induction false} BeforeIsByBytes(a: string, b: string)
    ensures Before(a, b) <==> exists k: nat :: DiffersBelow(a, b, k)
  {
    if Before(a, b) {
      var k := WhereTheyDiffer(a, b);
    }
    if k: nat :| DiffersBelow(a, b, k) {
      BeforeAt(a, b, k);
    }
  }

  lemma {:induction false} WhereTheyDiffer(a: string, b: string) returns (k: nat)
    requires Before(a, b)
    ensures DiffersBelow(a, b, k)
  {
    if a != "" && a[0] == b[0] {
      var j := WhereTheyDiffer(a[1..], b[1..]);
      k := j + 1;
      assert a[..k] == [a[0]] + a[1..][..j] && b[..k] == [b[0]] + b[1..][..j];
    } else {
      k := 0;
    }
  }

  lemma {:induction false} BeforeAt(a: string, b: string, k: nat)
    requires DiffersBelow(a, b, k)
    ensures Before(a, b)
  {
    if k > 0 {
      assert a[0] == a[..k][0] == b[..k][0] == b[0];
      assert a[1..][..k - 1] == a[..k][1..] && b[1..][..k - 1] == b[..k][1..];
      BeforeAt(a[1..], b[1..], k - 1);
    }
  }

  function Converse(less: Less<string>): Less<string>
  {
    (a, b) => less(b, a)
  }

  lemma {:induction false} ConverseIsTotal(less: Less<string>)
    requires IsTotalOrder(less)
    ensures IsTotalOrder(Converse(less))
  {
  }

  /** Every line comes before all later ones. */
  ghost predicate IsStrictlyOrdered(less: Less<string>, lines: seq<string>)
  {
    forall i, j :: 0 <= i < j < |lines| ==> less(lines[i], lines[j])
  }

  lemma {:induction false} DedupedIsStrict(less: Less<string>, lines: seq<string>)
    requires IsTotalOrder(less) && IsOrdered(less, lines)
    ensures IsStrictlyOrdered(less, Runs.Deduped(lines))
  {
    if lines != [] {
      var front, last := lines[..|lines| - 1], lines[|lines| - 1];
      DedupedIsStrict(less, front);
      DedupedKeeps(front);
      if front != [] && front[|front| - 1] != last {
        var d := Runs.Deduped(front);
        assert d[|d| - 1] == front[|front| - 1] == lines[|front| - 1];
        assert less(d[|d| - 1], last);
        forall i | 0 <= i < |d| ensures less(d[i], last) {
          if i < |d| - 1 { TotalIsTransitive(less, d[i], d[|d| - 1], last); }
        }
      }
    }
  }

  lemma {:induction false} ReversedIsOrdered(less: Less<string>, lines: seq<string>)
    requires IsOrdered(less, lines)
    ensures IsOrdered(Converse(less), Reversed(lines))
  {
  }

  /** With a total order such as the byte order the result is ordered, downwards when reversed,
      and strictly when repeated lines are dropped. */
  lemma {:induction false} TotalSortOrders(less: Less<string>, lines: seq<string>, reverse: bool, unique: bool)
    requires IsTotalOrder(less)
    ensures var direction := if reverse then Converse(less) else less;
      && IsOrdered(direction, SortedLines(lines, less, reverse, unique))
      && (unique ==> IsStrictlyOrdered(direction, SortedLines(lines, less, reverse, unique)))
  {
    var sorted := SliceSorted(less, lines);
    TotalIsInserting(less, lines);
    SortSorts(less, (_: string) => true, lines);
    ReversedIsOrdered(less, sorted);
    ConverseIsTotal(less);
    var directed := if reverse then Reversed(sorted) else sorted;
    var direction := if reverse then Converse(less) else less;
    if unique {
      DedupedIsStrict(direction, directed);
      StrictIsOrdered(direction, Runs.Deduped(directed));
    }
  }

  lemma {:induction false} TotalIsInserting(less: Less<string>, lines: seq<string>)
    requires IsTotalOrder(less)
    ensures SliceSorted(less, lines) == StableSorted(less, lines)
  {
    var all := (_: string) => true;
    assert forall a: string, b: string :: all(a) && all(b);
    WeakOrderIsInserting(less, all, lines);
  }

  lemma {:induction false} StrictIsOrdered(less: Less<string>, lines: seq<string>)
    requires IsTotalOrder(less) && IsStrictlyOrdered(less, lines)
    ensures IsOrdered(less, lines) && Runs.Deduped(lines) == lines
  {
    forall i, j | 0 <= i < j < |lines| ensures !less(lines[j], lines[i]) && lines[i] != lines[j] {
      assert less(lines[i], lines[j]);
    }
    DistinctNeighboursStay(lines);
  }

  lemma {:induction false} DistinctNeighboursStay(lines: seq<string>)
    requires forall i :: 0 < i < |lines| ==> lines[i - 1] != lines[i]
    ensures Runs.Deduped(lines) == lines
  {
    if lines != [] {
      DistinctNeighboursStay(lines[..|lines| - 1]);
      assert lines == lines[..|lines| - 1] + [lines[|lines| - 1]];
    }
  }

  /** Sorting by bytes puts the lines in ascending order, or descending when reversed: of two
      different lines the one in front is a proper start of the other, or has the smaller byte
      where they first differ; when reversed it is the other way round. */
  lemma {:induction false} ByteSortAscends(lines: seq<string>, reverse: bool, unique: bool, i: nat, j: nat)
    requires i < j < |SortedLines(lines, Before, reverse, unique)|
    ensures var sorted := SortedLines(lines, Before, reverse, unique);
      var small, large := if reverse then sorted[j] else sorted[i], if reverse then sorted[i] else sorted[j];
      (small == large && !unique) || exists k: nat :: DiffersBelow(small, large, k)
  {
    BeforeIsTotal();
    TotalSortOrders(Before, lines, reverse, unique);
    var sorted := SortedLines(lines, Before, reverse, unique);
    BeforeIsConnected(sorted[i], sorted[j]);
    BeforeIsByBytes(sorted[i], sorted[j]);
    BeforeIsByBytes(sorted[j], sorted[i]);
  }

  /** Sorting by bytes: the same lines, ordered; and sorting the result again the same way
      changes nothing. */
  lemma {:induction false} ByteSortIsIdempotent(lines: seq<string>, reverse: bool, unique: bool)
    ensures var once := SortedLines(lines, Before, reverse, unique);
      SortedLines(once, Before, reverse, unique) == once
  {
    BeforeIsTotal();
    var once := SortedLines(lines, Before, reverse, unique);
    TotalSortOrders(Before, lines, reverse, unique);
    ConverseIsTotal(Before);
    if unique { StrictIsOrdered(if reverse then Converse(Before) else Before, once); }
    SortingOrdered(Before, once, reverse);
  }

  lemma {:induction false} SortingOrdered(less: Less<string>, lines: seq<string>, reverse: bool)
    requires IsTotalOrder(less) && IsOrdered(if reverse then Converse(less) else less, lines)
    ensures (if reverse then Reversed(SliceSorted(less, lines)) else SliceSorted(less, lines)) == lines
  {
    TotalIsInserting(less, lines);
    if reverse {
      var all := (_: string) => true;
      SortSorts(less, all, lines);
      ReversePermutes(lines);
      ReversedIsOrdered(Converse(less), lines);
      assert IsOrdered(less, Reversed(lines));
      TotalPeers(less, StableSorted(less, lines), Reversed(lines));
      SortIsDetermined(less, all, StableSorted(less, lines), Reversed(lines));
      assert Reversed(Reversed(lines)) == lines;
    } else {
      NeighboursStay(less, lines);
    }
  }

  /** Under a total order equally large lines are equal, so any order is stable. */
  lemma {:induction false} TotalPeers(less: Less<string>, a: seq<string>, b: seq<string>)
    requires IsTotalOrder(less) && multiset(a) == multiset(b)
    ensures IsStable(less, (_: string) => true, a, b)
  {
    forall x ensures Peers(less, b, x) == Peers(less, a, x) {
      PeersAreCopies(less, a, x);
      PeersAreCopies(less, b, x);
      assert |Peers(less, a, x)| == multiset(a)[x] == multiset(b)[x] == |Peers(less, b, x)|;
    }
  }

  lemma {:induction false} PeersAreCopies(less: Less<string>, lines: seq<string>, x: string)
    requires IsTotalOrder(less)
    ensures |Peers(less, lines, x)| == multiset(lines)[x]
    ensures forall i :: 0 <= i < |Peers(less, lines, x)| ==> Peers(less, lines, x)[i] == x
  {
    if lines != [] {
      var front, last := lines[..|lines| - 1], lines[|lines| - 1];
      PeersAreCopies(less, front, x);
      assert lines == front + [last];
      assert !less(x, x);
    }
  }

  // ----- by value

  predicate IsNumber(parse: Parse, line: string)
  {
    parse(TrimSpace(line)).Some? && parse(TrimSpace(line)).value != NotANumber
  }

  lemma {:induction false} NumericIsAsymmetric(parse: Parse)
    ensures IsAsymmetric(LessBy(parse, true))
  {
    BeforeIsTotal();
  }

  /** Among numbers the comparison by value is a weak order. */
  lemma {:induction false} NumbersAreOrdered(parse: Parse)
    ensures IsWeakOrder(LessBy(parse, true), line => IsNumber(parse, line))
  {
    assert forall x: Float, y: Float, z: Float :: y != NotANumber && Below(x, z) ==> Below(x, y) || Below(y, z);
  }

  /** When every line is a number, sorting by value orders the lines and keeps the order of
      equal values; reversing turns that order round as well. */
  lemma {:induction false} NumericSortIsStable(parse: Parse, lines: seq<string>, reverse: bool)
    requires AreGood(line => IsNumber(parse, line), lines)
    ensures var less, r := LessBy(parse, true), SortedLines(lines, LessBy(parse, true), reverse, false);
      && IsOrdered(if reverse then Converse(less) else less, r)
      && forall x :: IsNumber(parse, x) ==>
           Peers(less, r, x) == if reverse then Reversed(Peers(less, lines, x)) else Peers(less, lines, x)
  {
    var less, sorted := LessBy(parse, true), StableSorted(LessBy(parse, true), lines);
    NumbersAreOrdered(parse);
    NumericIsAsymmetric(parse);
    WeakOrderIsInserting(less, line => IsNumber(parse, line), lines);
    SortSorts(less, line => IsNumber(parse, line), lines);
    ReversedIsOrdered(less, sorted);
    forall x | IsNumber(parse, x) ensures Peers(less, sorted, x) == Peers(less, lines, x)
      ensures Peers(less, Reversed(sorted), x) == Reversed(Peers(less, sorted, x))
    {
      PeersOfReversed(less, sorted, x);
    }
  }

  /** Lines that are numbers stand in the order of their values as reals, with minus infinity in
      front and plus infinity behind, and the other way round when reversed. */
  lemma {:induction false} NumericSortAscends(parse: Parse, lines: seq<string>, reverse: bool, i: nat, j: nat)
    requires forall k :: 0 <= k < |lines| ==> IsNumber(parse, lines[k])
    requires i < j < |SortedLines(lines, LessBy(parse, true), reverse, false)|
    ensures var sorted := SortedLines(lines, LessBy(parse, true), reverse, false);
      var small, large := if reverse then sorted[j] else sorted[i], if reverse then sorted[i] else sorted[j];
      var x, y := parse(TrimSpace(small)), parse(TrimSpace(large));
      && x.Some? && y.Some?
      && (x.value == MinusInfinity || y.value == PlusInfinity || (x.value.Finite? && y.value.Finite? && x.value.r <= y.value.r))
  {
    var sorted := SortedLines(lines, LessBy(parse, true), reverse, false);
    NumericSortIsStable(parse, lines, reverse);
    SortKeepsLines(lines, LessBy(parse, true), reverse, false);
    assert sorted[i] in lines && sorted[j] in lines;
  }

  lemma {:induction false} PeersOfConcat(less: Less<string>, a: seq<string>, b: seq<string>, x: string)
    ensures Peers(less, a + b, x) == Peers(less, a, x) + Peers(less, b, x)
  {
    if b == [] {
      assert a + b == a;
    } else {
      PeersOfConcat(less, a, b[..|b| - 1], x);
      PeersOfMore(less, a + b[..|b| - 1], b[|b| - 1], x);
      assert a + b == a + b[..|b| - 1] + [b[|b| - 1]];
    }
  }

  lemma {:induction false} PeersOfReversed(less: Less<string>, lines: seq<string>, x: string)
    ensures Peers(less, Reversed(lines), x) == Reversed(Peers(less, lines, x))
  {
    if lines != [] {
      var front, last := lines[..|lines| - 1], lines[|lines| - 1];
      PeersOfReversed(less, front, x);
      assert Reversed(lines) == [last] + Reversed(front);
      PeersOfConcat(less, [last], Reversed(front), x);
      assert Peers(less, [], x) == [] && [last][..0] == [];
    }
  }

  /** When no line is a number, sorting by value is sorting by bytes. */
  lemma {:induction false} TextsSortByBytes(parse: Parse, lines: seq<string>)
    requires forall i :: 0 <= i < |lines| ==> parse(TrimSpace(lines[i])) == None
    ensures SliceSorted(LessBy(parse, true), lines) == SliceSorted(Before, lines)
  {
    var isText := line => parse(TrimSpace(line)) == None;
    BeforeIsTotal();
    NumericIsAsymmetric(parse);
    TextsAreOrdered(parse, isText);
    WeakOrderIsInserting(LessBy(parse, true), isText, lines);
    TotalIsInserting(Before, lines);
    TextsInsertByBytes(parse, lines);
  }

  lemma {:induction false} TextsAreOrdered(parse: Parse, isText: string -> bool)
    requires forall line :: isText(line) ==> parse(TrimSpace(line)) == None
    ensures IsWeakOrder(LessBy(parse, true), isText)
  {
    BeforeIsTotal();
    var less, all := LessBy(parse, true), (_: string) => true;
    forall a, b, c | isText(a) && isText(b) && isText(c) && less(a, c) ensures less(a, b) || less(b, c) {
      assert all(b) && Before(a, c);
    }
  }

  lemma {:induction false} TextsInsertByBytes(parse: Parse, lines: seq<string>)
    requires forall i :: 0 <= i < |lines| ==> parse(TrimSpace(lines[i])) == None
    ensures StableSorted(LessBy(parse, true), lines) == StableSorted(Before, lines)
  {
    if lines != [] {
      TextsInsertByBytes(parse, lines[..|lines| - 1]);
      InsertText(parse, StableSorted(Before, lines[..|lines| - 1]), lines[|lines| - 1]);
    }
  }

  lemma {:induction false} InsertText(parse: Parse, sorted: seq<string>, x: string)
    requires parse(TrimSpace(x)) == None
    ensures Insert(LessBy(parse, true), sorted, x) == Insert(Before, sorted, x)
  {
    if sorted != [] { InsertText(parse, sorted[..|sorted| - 1], x); }
  }

  // ----- where sorting by value does not order

  /** Numbers and texts together need not have an order: a smaller number that comes after a
      larger one as text, and a text between them, go round in a circle. For instance 10, 1a
      and 9. No arrangement of such lines is ordered, so whatever algorithm sorts them, its
      result is not. */
  lemma {:induction false} MixedLinesHaveNoOrder(parse: Parse, ten: string, word: string, nine: string, arranged: seq<string>)
    requires parse(TrimSpace(word)) == None && IsNumber(parse, ten) && IsNumber(parse, nine)
    requires Below(parse(TrimSpace(nine)).value, parse(TrimSpace(ten)).value) && Before(ten, word) && Before(word, nine)
    requires multiset(arranged) == multiset{ten, word, nine}
    ensures !IsOrdered(LessBy(parse, true), arranged)
  {
    var less := LessBy(parse, true);
    assert less(ten, word) && less(word, nine) && less(nine, ten);
    assert |arranged| == |multiset(arranged)| == 3;
    var first := arranged[0];
    assert first in multiset(arranged);
    var smaller := if first == ten then nine else if first == word then ten else word;
    assert smaller in multiset(arranged) && less(smaller, first);
    var i :| 0 <= i < 3 && arranged[i] == smaller;
    BeforeIsTotal();
  }

  /** Up to twenty lines, sorting by value orders them exactly if no three get stuck. At every
      length it does if none do, and it does not if three of one block of twenty do. */
  lemma {:induction false} NumericSortOrdersExactly(parse: Parse, lines: seq<string>)
    ensures var less := LessBy(parse, true); var sorted := SliceSorted(less, lines);
      && (|lines| <= BLOCK ==> (IsOrdered(less, sorted) <==> !HasStuckTriple(less, lines)))
      && (!HasStuckTriple(less, lines) ==> IsOrdered(less, sorted))
      && (HasStuckBlock(less, lines, BLOCK) ==> !IsOrdered(less, sorted))
  {
    NumericIsAsymmetric(parse);
    SliceOrdersExactly(LessBy(parse, true), lines);
  }

  /** At every length, sorting by value orders all arrangements of some lines exactly if the
      comparison is consistent on them. */
  lemma {:induction false} NumericSortOrdersEveryArrangement(parse: Parse, lines: seq<string>)
    ensures (forall arranged :: multiset(arranged) == multiset(lines) ==>
        IsOrdered(LessBy(parse, true), SliceSorted(LessBy(parse, true), arranged)))
      <==> IsConsistent(LessBy(parse, true), lines)
  {
    NumericIsAsymmetric(parse);
    OrdersEveryArrangement(LessBy(parse, true), lines);
  }

  /** A line that parses as not-a-number is neither before nor after any number, so it hides a
      larger number from a smaller one behind it. */
  lemma {:induction false} NotANumberHidesOrder(parse: Parse, one: string, nan: string, zero: string)
    requires parse(TrimSpace(nan)) == Some(NotANumber) && IsNumber(parse, one) && IsNumber(parse, zero)
    requires Below(parse(TrimSpace(zero)).value, parse(TrimSpace(one)).value)
    ensures SliceSorted(LessBy(parse, true), [one, nan, zero]) == [one, nan, zero]
    ensures !IsOrdered(LessBy(parse, true), [one, nan, zero])
  {
    var less, lines := LessBy(parse, true), [one, nan, zero];
    assert less(zero, one) && lines[0] == one && lines[2] == zero;
    NeighboursStay(less, lines);
  }

  /** But beyond one block it need not: behind nineteen copies of the larger number and the line
      that is not one, merging finds the place of the smaller all the same. */
  lemma {:induction false} NotANumberMayHideNothing(parse: Parse, two: string, nan: string, one: string)
    requires parse(TrimSpace(nan)) == Some(NotANumber) && IsNumber(parse, two) && IsNumber(parse, one)
    requires Below(parse(TrimSpace(one)).value, parse(TrimSpace(two)).value)
    ensures var less, lines := LessBy(parse, true), seq(19, _ => two) + [nan, one];
      HasStuckTriple(less, lines) && SliceSorted(less, lines) == [one] + seq(19, _ => two) + [nan]
      && IsOrdered(less, SliceSorted(less, lines))
  {
    NumericIsAsymmetric(parse);
    MergingMayFreeStuck(LessBy(parse, true), two, nan, one);
  }
}
