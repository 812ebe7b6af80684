/** The linked document tree of `golang.org/x/net/html`, and the clone-and-clean pass of
    webutils/browser.go over it. */
module Dom {
  import opened Shapes

  class Node {
    const info: Info
    var parent: Node?
    var firstChild: Node?
    var lastChild: Node?
    var prevSibling: Node?
    var nextSibling: Node?

    constructor (info: Info)
      ensures this.info == info
      ensures parent == null && firstChild == null && lastChild == null && prevSibling == null && nextSibling == null
    {
      this.info := info;
      parent, firstChild, lastChild, prevSibling, nextSibling := null, null, null, null, null;
    }
  }

  /** A tree of node objects as a value: which nodes hang where. */
  datatype Shape = Shape(node: Node, kids: seq<Shape>)

  /** Where the links of a heap of nodes should point: every node's row of children, the only
      node that may have it as a child, and a rank that falls from parent to child. */
  datatype Layout = Layout(rows: map<Node, seq<Node>>, owner: map<Node, Node>, rank: map<Node, nat>)

  ghost function Elements(row: seq<Node>): set<Node>
  {
    set n | n in row
  }

  ghost function At(row: seq<Node>, i: int): Node?
  {
    if 0 <= i < |row| then row[i] else null
  }

  /** The children of `n` are the nodes of `row`, in that order. */
  ghost predicate Chained(n: Node, row: seq<Node>)
    reads n`firstChild, n`lastChild
    reads Elements(row)`parent, Elements(row)`prevSibling, Elements(row)`nextSibling
  {
    && n.firstChild == At(row, 0) && n.lastChild == At(row, |row| - 1)
    && forall i {:trigger InPlace(n, row, i)} :: 0 <= i < |row| ==> InPlace(n, row, i)
  }

  ghost predicate InPlace(n: Node, row: seq<Node>, i: int)
    requires 0 <= i < |row|
    reads {row[i]}`parent, {row[i]}`prevSibling, {row[i]}`nextSibling
  {
    row[i].parent == n && row[i].prevSibling == At(row, i - 1) && row[i].nextSibling == At(row, i + 1)
  }

  /** Children are laid out too, ranks fall, and nobody is the child of two nodes. */
  ghost predicate IsSound(l: Layout)
  {
    && l.rank.Keys == l.rows.Keys
    && forall n {:trigger IsRow(l, n, l.rows[n])} :: n in l.rows ==> IsRow(l, n, l.rows[n])
  }

  ghost predicate IsRow(l: Layout, n: Node, row: seq<Node>)
    requires l.rank.Keys == l.rows.Keys && n in l.rows
  {
    && Distinct(row)
    && forall c :: c in row ==>
      c in l.rows && l.rank[c] < l.rank[n] && c in l.owner && l.owner[c] == n
  }

  /** The link fields of all nodes agree with the layout. */
  ghost predicate Linked(l: Layout)
    requires IsSound(l)
    reads l.rows.Keys
  {
    assert forall n :: n in l.rows ==> IsRow(l, n, l.rows[n]);
    forall n {:trigger Chained(n, l.rows[n])} :: n in l.rows ==> Chained(n, l.rows[n])
  }

  ghost predicate Distinct(row: seq<Node>)
  {
    forall i, j :: 0 <= i < j < |row| ==> row[i] != row[j]
  }

  // ----- the two link operations of the html package

  /** `(*Node).AppendChild`. */
  method AppendChild(n: Node, c: Node, ghost row: seq<Node>)
    requires Chained(n, row) && Distinct(row) && c !in row && n !in row && n != c
    requires c.parent == null && c.prevSibling == null && c.nextSibling == null
    modifies n`firstChild, n`lastChild, Elements(row)`nextSibling, c`parent, c`prevSibling
    ensures Chained(n, row + [c])
  {
    assert row != [] ==> InPlace(n, row, |row| - 1);
    var last := n.lastChild;
    if last != null {
      last.nextSibling := c;
    } else {
      n.firstChild := c;
    }
    n.lastChild := c;
    c.parent := n;
    c.prevSibling := last;
    forall i | 0 <= i < |row + [c]|
      ensures InPlace(n, row + [c], i)
    {
      if i < |row| { assert old(InPlace(n, row, i)); }
    }
  }

  /** `(*Node).RemoveChild`. */
  method RemoveChild(n: Node, c: Node, ghost row: seq<Node>, ghost k: nat)
    requires Chained(n, row) && Distinct(row) && n !in row && k < |row| && row[k] == c
    modifies n`firstChild, n`lastChild, c`parent, Elements(row)`prevSibling, Elements(row)`nextSibling
    ensures Chained(n, row[..k] + row[k + 1..])
    ensures c.parent == null && c.prevSibling == null && c.nextSibling == null
  {
    assert InPlace(n, row, k);
    assert k > 0 ==> InPlace(n, row, k - 1);
    assert k + 1 < |row| ==> InPlace(n, row, k + 1);
    if n.firstChild == c {
      n.firstChild := c.nextSibling;
    }
    if c.nextSibling != null {
      c.nextSibling.prevSibling := c.prevSibling;
    }
    if n.lastChild == c {
      n.lastChild := c.prevSibling;
    }
    if c.prevSibling != null {
      c.prevSibling.nextSibling := c.nextSibling;
    }
    c.parent := null;
    c.prevSibling := null;
    c.nextSibling := null;
    ghost var rest := row[..k] + row[k + 1..];
    forall i | 0 <= i < |rest|
      ensures InPlace(n, rest, i)
    {
      var j := if i < k then i else i + 1;
      assert rest[i] == row[j];
      assert old(InPlace(n, row, j));
    }
  }

  // ----- cleaning

  /** The children that stay. */
  function Kept(noise: Test, row: seq<Node>): seq<Node>
  {
    if row == [] then []
    else
      var before, last := Kept(noise, row[..|row| - 1]), row[|row| - 1];
      if noise(last.info) then before else before + [last]
  }

  /** No removable node lies on the way down from `n` to `m`, `n` itself aside. */
  ghost predicate IsClear(noise: Test, l: Layout, n: Node, m: Node)
    requires IsSound(l) && n in l.rows
    decreases l.rank[n]
  {
    assert IsRow(l, n, l.rows[n]);
    n == m || exists c :: c in l.rows[n] && !noise(c.info) && IsClear(noise, l, c, m)
  }

  /** Cleaning below `n` keeps, of the children of every node that `n` reaches clearly, those
      that are not removable, and leaves every other node's children alone. */
  ghost function CleanedLayout(noise: Test, l: Layout, n: Node): Layout
    requires IsSound(l) && n in l.rows
  {
    Layout(map m | m in l.rows :: if IsClear(noise, l, n, m) then Kept(noise, l.rows[m]) else l.rows[m], l.owner, l.rank)
  }

  lemma {:induction false} KeptIsPart(noise: Test, row: seq<Node>)
    ensures forall c :: c in Kept(noise, row) <==> c in row && !noise(c.info)
    ensures Distinct(row) ==> Distinct(Kept(noise, row))
    ensures Kept(noise, Kept(noise, row)) == Kept(noise, row)
  {
    KeptMembers(noise, row);
    KeptDistinct(noise, row);
    KeptTwice(noise, row);
  }

  lemma {:induction false} KeptMembers(noise: Test, row: seq<Node>)
    ensures forall c :: c in Kept(noise, row) <==> c in row && !noise(c.info)
  {
    if row != [] {
      var front, last := row[..|row| - 1], row[|row| - 1];
      KeptMembers(noise, front);
      assert row == front + [last];
      KeptOfMore(noise, front, last);
    }
  }

  lemma {:induction false} KeptDistinct(noise: Test, row: seq<Node>)
    ensures Distinct(row) ==> Distinct(Kept(noise, row))
  {
    if row != [] {
      var front, last := row[..|row| - 1], row[|row| - 1];
      KeptDistinct(noise, front);
      KeptMembers(noise, front);
      assert row == front + [last];
      assert Distinct(row) ==> last !in front;
    }
  }

  lemma {:induction false} KeptTwice(noise: Test, row: seq<Node>)
    ensures Kept(noise, Kept(noise, row)) == Kept(noise, row)
  {
    if row != [] {
      var front, last := row[..|row| - 1], row[|row| - 1];
      KeptTwice(noise, front);
      KeptOfMore(noise, Kept(noise, front), last);
    }
  }

  lemma {:induction false} KeptOfMore(noise: Test, row: seq<Node>, c: Node)
    ensures Kept(noise, row + [c]) == Kept(noise, row) + if noise(c.info) then [] else [c]
  {
    assert (row + [c])[..|row|] == row;
  }

  lemma {:induction false} KeptConcat(noise: Test, a: seq<Node>, b: seq<Node>)
    ensures Kept(noise, a + b) == Kept(noise, a) + Kept(noise, b)
  {
    if b == [] {
      assert a + b == a;
    } else {
      assert (a + b)[..|a + b| - 1] == a + b[..|b| - 1];
      KeptConcat(noise, a, b[..|b| - 1]);
    }
  }

  // ----- a layout in the middle of cleaning

  /** `l'` has lost some removable children that `l` has. */
  ghost predicate IsPartlyCleaned(noise: Test, l: Layout, l': Layout)
    requires IsSound(l)
  {
    && l'.rank == l.rank && l'.owner == l.owner && l'.rows.Keys == l.rows.Keys
    && forall m {:trigger IsThinned(noise, l.rows[m], l'.rows[m])} :: m in l.rows ==> IsThinned(noise, l.rows[m], l'.rows[m])
  }

  ghost predicate IsThinned(noise: Test, row: seq<Node>, row': seq<Node>)
  {
    Distinct(row') && Kept(noise, row') == Kept(noise, row) && forall c :: c in row' ==> c in row
  }

  lemma {:induction false} PartlyCleanedIsSound(noise: Test, l: Layout, l': Layout)
    requires IsSound(l) && IsPartlyCleaned(noise, l, l')
    ensures IsSound(l')
  {
    forall n | n in l'.rows ensures IsRow(l', n, l'.rows[n]) {
      assert IsRow(l, n, l.rows[n]) && IsThinned(noise, l.rows[n], l'.rows[n]);
    }
  }

  /** Partial cleaning does not change what can be reached clearly. */
  lemma {:induction false} ClearIsStable(noise: Test, l: Layout, l': Layout, n: Node, m: Node)
    requires IsSound(l) && IsPartlyCleaned(noise, l, l') && IsSound(l') && n in l.rows
    ensures IsClear(noise, l', n, m) <==> IsClear(noise, l, n, m)
    decreases l.rank[n]
  {
    assert IsThinned(noise, l.rows[n], l'.rows[n]) && IsRow(l, n, l.rows[n]);
    KeptIsPart(noise, l.rows[n]);
    KeptIsPart(noise, l'.rows[n]);
    forall c | c in l.rows[n] ensures IsClear(noise, l', c, m) <==> IsClear(noise, l, c, m) {
      ClearIsStable(noise, l, l', c, m);
    }
  }

  /** What is reached clearly from `n` does not rank above `n`. */
  lemma {:induction false} ClearFalls(noise: Test, l: Layout, n: Node, m: Node)
    requires IsSound(l) && n in l.rows && IsClear(noise, l, n, m)
    ensures m in l.rows && (m == n || l.rank[m] < l.rank[n])
    decreases l.rank[n]
  {
    assert IsRow(l, n, l.rows[n]);
    if m != n {
      var c :| c in l.rows[n] && !noise(c.info) && IsClear(noise, l, c, m);
      ClearFalls(noise, l, c, m);
    }
  }

  /** Some of the first `i` children stays and reaches `m` clearly. */
  ghost predicate IsReached(noise: Test, l: Layout, n: Node, i: nat, m: Node)
    requires IsSound(l) && n in l.rows && i <= |l.rows[n]|
  {
    assert IsRow(l, n, l.rows[n]);
    exists j :: 0 <= j < i && !noise(l.rows[n][j].info) && IsClear(noise, l, l.rows[n][j], m)
  }

  /** A row whose first `i` nodes have been dealt with. */
  ghost function MidRow(noise: Test, row: seq<Node>, i: nat): seq<Node>
    requires i <= |row|
  {
    Kept(noise, row[..i]) + row[i..]
  }

  lemma {:induction false} MidRowEnds(noise: Test, row: seq<Node>)
    ensures MidRow(noise, row, 0) == row && MidRow(noise, row, |row|) == Kept(noise, row)
  {
    assert row[..0] == [] && row[0..] == row && [] + row == row;
    assert row[..|row|] == row && row[|row|..] == [];
  }

  lemma {:induction false} DistinctConcat(a: seq<Node>, b: seq<Node>)
    ensures Distinct(a + b) <==> Distinct(a) && Distinct(b) && forall c :: c in a ==> c !in b
  {
    var ab := a + b;
    if Distinct(ab) {
      forall x, y | 0 <= x < |a| && 0 <= y < |b| ensures a[x] != b[y] { assert ab[x] == a[x] && ab[|a| + y] == b[y]; }
      forall x, y | 0 <= x < y < |b| ensures b[x] != b[y] { assert ab[|a| + x] == b[x] && ab[|a| + y] == b[y]; }
      forall x, y | 0 <= x < y < |a| ensures a[x] != a[y] { assert ab[x] == a[x] && ab[y] == a[y]; }
      assert forall c :: c in a ==> c !in b;
    }
    if Distinct(a) && Distinct(b) && (forall c :: c in a ==> c !in b) {
      forall x, y | 0 <= x < y < |ab| ensures ab[x] != ab[y] {
        if x < |a| <= y { assert ab[x] in a && ab[y] in b; }
      }
    }
  }

  lemma {:induction false} MidRowIsThinned(noise: Test, row: seq<Node>, i: nat)
    requires Distinct(row) && i <= |row|
    ensures IsThinned(noise, row, MidRow(noise, row, i))
  {
    var a, b := row[..i], row[i..];
    var mid := Kept(noise, a) + b;
    assert row == a + b;
    KeptIsPart(noise, a);
    assert Distinct(mid) by {
      DistinctConcat(a, b);
      DistinctConcat(Kept(noise, a), b);
    }
    assert Kept(noise, mid) == Kept(noise, row) by {
      KeptConcat(noise, a, b);
      KeptConcat(noise, Kept(noise, a), b);
    }
    forall c | c in mid ensures c in row {
      assert c in Kept(noise, a) || c in b;
      assert c in a || c in b;
    }
  }

  lemma {:induction false} MidRowStep(noise: Test, row: seq<Node>, i: nat)
    requires i < |row|
    ensures var k, mid := |Kept(noise, row[..i])|, MidRow(noise, row, i);
      && k < |mid| && mid[k] == row[i] && At(mid, k + 1) == At(row, i + 1)
      && MidRow(noise, row, i + 1) == if noise(row[i].info) then mid[..k] + mid[k + 1..] else mid
  {
    assert row[..i + 1][..i] == row[..i];
    assert row[i..] == [row[i]] + row[i + 1..];
  }

  /** The layout once the first `i` children of `n` have been dealt with. */
  ghost function Midway(noise: Test, l: Layout, n: Node, i: nat): Layout
    requires IsSound(l) && n in l.rows && i <= |l.rows[n]|
  {
    Layout(map m | m in l.rows ::
             if m == n then MidRow(noise, l.rows[n], i)
             else if IsReached(noise, l, n, i, m) then Kept(noise, l.rows[m]) else l.rows[m],
           l.owner, l.rank)
  }

  lemma {:induction false} MidwayIsSound(noise: Test, l: Layout, n: Node, i: nat)
    requires IsSound(l) && n in l.rows && i <= |l.rows[n]|
    ensures IsPartlyCleaned(noise, l, Midway(noise, l, n, i)) && IsSound(Midway(noise, l, n, i))
  {
    forall m | m in l.rows ensures IsThinned(noise, l.rows[m], Midway(noise, l, n, i).rows[m]) {
      assert IsRow(l, m, l.rows[m]);
      KeptIsPart(noise, l.rows[m]);
      assert IsThinned(noise, l.rows[m], Kept(noise, l.rows[m])) && IsThinned(noise, l.rows[m], l.rows[m]);
      if m == n { MidRowIsThinned(noise, l.rows[n], i); }
    }
    PartlyCleanedIsSound(noise, l, Midway(noise, l, n, i));
  }

  lemma {:induction false} MidwayStarts(noise: Test, l: Layout, n: Node)
    requires IsSound(l) && n in l.rows
    ensures Midway(noise, l, n, 0) == l
  {
    assert IsRow(l, n, l.rows[n]);
    MidRowEnds(noise, l.rows[n]);
    assert Midway(noise, l, n, 0).rows == l.rows;
  }

  lemma {:induction false} MidwayEnds(noise: Test, l: Layout, n: Node)
    requires IsSound(l) && n in l.rows
    ensures Midway(noise, l, n, |l.rows[n]|) == CleanedLayout(noise, l, n)
  {
    var row := l.rows[n];
    assert IsRow(l, n, row);
    MidRowEnds(noise, row);
    forall m | m in l.rows && m != n ensures IsReached(noise, l, n, |row|, m) <==> IsClear(noise, l, n, m) {
    }
    assert Midway(noise, l, n, |row|).rows == CleanedLayout(noise, l, n).rows;
  }

  lemma {:induction false} CleanedIsSound(noise: Test, l: Layout, n: Node)
    requires IsSound(l) && n in l.rows
    ensures IsSound(CleanedLayout(noise, l, n))
  {
    MidwayEnds(noise, l, n);
    MidwayIsSound(noise, l, n, |l.rows[n]|);
  }

  lemma {:induction false} ReachedStep(noise: Test, l: Layout, n: Node, i: nat, m: Node)
    requires IsSound(l) && n in l.rows && i < |l.rows[n]|
    ensures var c := l.rows[n][i];
      && c in l.rows && l.rank[c] < l.rank[n]
      && (IsReached(noise, l, n, i + 1, m) <==> IsReached(noise, l, n, i, m) || (!noise(c.info) && IsClear(noise, l, c, m)))
  {
    assert IsRow(l, n, l.rows[n]);
  }

  /** The next child is either dropped from the row or cleaned where it is. */
  lemma {:induction false} MidwayStep(noise: Test, l: Layout, n: Node, i: nat)
    requires IsSound(l) && n in l.rows && i < |l.rows[n]|
    ensures var c, k, mid := l.rows[n][i], |Kept(noise, l.rows[n][..i])|, Midway(noise, l, n, i);
      && IsSound(mid) && c in mid.rows && l.rank[c] < l.rank[n]
      && k < |mid.rows[n]| && mid.rows[n][k] == c && At(mid.rows[n], k + 1) == At(l.rows[n], i + 1)
      && Midway(noise, l, n, i + 1) == if noise(c.info) then WithoutChild(mid, n, k) else CleanedLayout(noise, mid, c)
  {
    MidwayIsSound(noise, l, n, i);
    MidRowStep(noise, l.rows[n], i);
    ReachedStep(noise, l, n, i, n);
    if noise(l.rows[n][i].info) { MidwayDrops(noise, l, n, i); } else { MidwayCleans(noise, l, n, i); }
  }

  lemma {:induction false} MidwayDrops(noise: Test, l: Layout, n: Node, i: nat)
    requires IsSound(l) && n in l.rows && i < |l.rows[n]| && noise(l.rows[n][i].info)
    ensures var k, mid := |Kept(noise, l.rows[n][..i])|, Midway(noise, l, n, i);
      k < |mid.rows[n]| && Midway(noise, l, n, i + 1) == WithoutChild(mid, n, k)
  {
    MidRowStep(noise, l.rows[n], i);
    hide Kept, MidRow, IsSound, IsReached;
    var k, mid := |Kept(noise, l.rows[n][..i])|, Midway(noise, l, n, i);
    forall m | m in l.rows ensures Midway(noise, l, n, i + 1).rows[m] == WithoutChild(mid, n, k).rows[m] {
      if m != n { OtherRowStays(noise, l, n, i, m); }
    }
    assert Midway(noise, l, n, i + 1).rows == WithoutChild(mid, n, k).rows;
  }

  lemma {:induction false} OtherRowStays(noise: Test, l: Layout, n: Node, i: nat, m: Node)
    requires IsSound(l) && n in l.rows && i < |l.rows[n]| && noise(l.rows[n][i].info) && m in l.rows && m != n
    ensures Midway(noise, l, n, i + 1).rows[m] == Midway(noise, l, n, i).rows[m]
  {
    ReachedStep(noise, l, n, i, m);
  }

  lemma {:induction false} MidwayCleans(noise: Test, l: Layout, n: Node, i: nat)
    requires IsSound(l) && n in l.rows && i < |l.rows[n]| && !noise(l.rows[n][i].info)
    requires var mid := Midway(noise, l, n, i); IsSound(mid) && IsPartlyCleaned(noise, l, mid)
    ensures var c, mid := l.rows[n][i], Midway(noise, l, n, i);
      c in mid.rows && Midway(noise, l, n, i + 1) == CleanedLayout(noise, mid, c)
  {
    ReachedStep(noise, l, n, i, n);
    var c, mid := l.rows[n][i], Midway(noise, l, n, i);
    forall m | m in l.rows ensures Midway(noise, l, n, i + 1).rows[m] == CleanedLayout(noise, mid, c).rows[m] {
      CleanedStep(noise, l, n, i, m);
    }
    assert Midway(noise, l, n, i + 1).rows == CleanedLayout(noise, mid, c).rows;
  }

  lemma {:induction false} CleanedStep(noise: Test, l: Layout, n: Node, i: nat, m: Node)
    requires IsSound(l) && n in l.rows && i < |l.rows[n]| && m in l.rows && !noise(l.rows[n][i].info)
    requires var mid := Midway(noise, l, n, i); IsSound(mid) && IsPartlyCleaned(noise, l, mid)
    ensures var c, mid := l.rows[n][i], Midway(noise, l, n, i);
      && c in l.rows && Midway(noise, l, n, i + 1).rows[m] == if IsClear(noise, mid, c, m) then Kept(noise, mid.rows[m]) else mid.rows[m]
  {
    var c := l.rows[n][i];
    ReachedStep(noise, l, n, i, m);
    ClearIsStable(noise, l, Midway(noise, l, n, i), c, m);
    KeptIsPart(noise, l.rows[m]);
    MidRowStep(noise, l.rows[n], i);
    if IsClear(noise, l, c, m) { ClearFalls(noise, l, c, m); }
  }

  ghost function WithoutChild(l: Layout, n: Node, k: nat): Layout
    requires n in l.rows && k < |l.rows[n]|
  {
    Layout(l.rows[n := l.rows[n][..k] + l.rows[n][k + 1..]], l.owner, l.rank)
  }

  // ----- cleaning in place

  lemma {:induction false} WithoutChildIsSound(l: Layout, n: Node, k: nat)
    requires IsSound(l) && n in l.rows && k < |l.rows[n]|
    ensures IsSound(WithoutChild(l, n, k))
  {
    var l' := WithoutChild(l, n, k);
    forall m | m in l'.rows ensures IsRow(l', m, l'.rows[m]) {
      assert IsRow(l, m, l.rows[m]);
    }
  }

  /** Taking one child out of a row keeps the whole heap in step with the layout. */
  method DropChild(n: Node, c: Node, ghost l: Layout, ghost k: nat)
    requires IsSound(l) && Linked(l) && n in l.rows && k < |l.rows[n]| && l.rows[n][k] == c
    modifies l.rows.Keys
    ensures IsSound(WithoutChild(l, n, k)) && Linked(WithoutChild(l, n, k))
  {
    ghost var row, l' := l.rows[n], WithoutChild(l, n, k);
    assert IsRow(l, n, row) && Chained(n, row);
    WithoutChildIsSound(l, n, k);
    RemoveChild(n, c, row, k);
    forall m | m in l'.rows ensures Chained(m, l'.rows[m]) {
      assert IsRow(l, m, l.rows[m]);
      if m != n {
        assert old(Chained(m, l.rows[m]));
        forall i | 0 <= i < |l.rows[m]| ensures InPlace(m, l.rows[m], i) {
          assert l.rows[m][i] in l.rows[m] && l.rows[m][i] !in row;
          assert old(InPlace(m, l.rows[m], i));
        }
      }
    }
  }

  /** `cleanRenderedDOMNode`: unlinks the removable nodes below `node`, in place and while
      the children are being walked. Afterwards the links agree with the cleaned layout. */
  method Clean(noise: Test, node: Node, ghost l: Layout)
    requires IsSound(l) && Linked(l) && node in l.rows
    modifies l.rows.Keys
    ensures IsSound(CleanedLayout(noise, l, node)) && Linked(CleanedLayout(noise, l, node))
    decreases l.rank[node], 2
  {
    MidwayStarts(noise, l, node);
    assert Chained(node, l.rows[node]);
    var child := node.firstChild;
    ghost var i := 0;
    while child != null
      invariant i <= |l.rows[node]| && child == At(l.rows[node], i)
      invariant IsMidway(noise, l, node, i)
      decreases |l.rows[node]| - i
    {
      child := CleanNext(noise, node, child, l, i);
      i := i + 1;
    }
    MidwayEnds(noise, l, node);
  }

  /** The links agree with the layout in which `i` children have been dealt with. */
  ghost predicate IsMidway(noise: Test, l: Layout, node: Node, i: nat)
    requires IsSound(l) && node in l.rows && i <= |l.rows[node]|
    reads l.rows.Keys
  {
    IsSound(Midway(noise, l, node, i)) && Linked(Midway(noise, l, node, i))
  }

  method CleanNext(noise: Test, node: Node, child: Node, ghost l: Layout, ghost i: nat) returns (next: Node?)
    requires IsSound(l) && node in l.rows && i < |l.rows[node]| && l.rows[node][i] == child
    requires IsMidway(noise, l, node, i)
    modifies l.rows.Keys
    ensures next == At(l.rows[node], i + 1) && IsMidway(noise, l, node, i + 1)
    decreases l.rank[node], 1
  {
    ghost var mid, k := Midway(noise, l, node, i), |Kept(noise, l.rows[node][..i])|;
    hide Midway, WithoutChild, CleanedLayout, Kept, IsSound, Linked;
    MidwayStep(noise, l, node, i);
    MidwayKeepsNodes(noise, l, node, i);
    MidwayKeepsNodes(noise, l, node, i + 1);
    next := CleanChild(noise, node, child, mid, k);
  }

  lemma {:induction false} MidwayKeepsNodes(noise: Test, l: Layout, n: Node, i: nat)
    requires IsSound(l) && n in l.rows && i <= |l.rows[n]|
    ensures Midway(noise, l, n, i).rows.Keys == l.rows.Keys && Midway(noise, l, n, i).rank == l.rank
  {
  }

  /** One turn of the loop: deals with one child and moves on to the next. */
  method CleanChild(noise: Test, node: Node, child: Node, ghost l: Layout, ghost k: nat) returns (next: Node?)
    requires IsSound(l) && Linked(l) && node in l.rows && k < |l.rows[node]| && l.rows[node][k] == child
    requires child in l.rows && l.rank[child] < l.rank[node]
    modifies l.rows.Keys
    ensures next == At(l.rows[node], k + 1)
    ensures var l' := if noise(child.info) then WithoutChild(l, node, k) else CleanedLayout(noise, l, child);
      IsSound(l') && Linked(l')
    decreases l.rank[node], 0
  {
    assert Chained(node, l.rows[node]) && InPlace(node, l.rows[node], k);
    next := child.nextSibling;
    if noise(child.info) {
      DropChild(node, child, l, k);
    } else {
      Clean(noise, child, l);
    }
  }
}
