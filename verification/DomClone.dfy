/** Copying a linked tree: `cloneHTMLNode` of webutils/browser.go. */
module DomClone {
  import opened Shapes
  import opened Dom
  import opened DomContent

  /** The layout of `a` with the tree `d` of `b` hung below `c`, after its other children. */
  ghost function Graft(a: Layout, c: Node, b: Layout, d: Node): Layout
    requires c in a.rows && c in a.rank && d in b.rank
  {
    var rank := if b.rank[d] < a.rank[c] then a.rank[c] else b.rank[d] + 1;
    Layout((a.rows + b.rows)[c := a.rows[c] + [d]], (a.owner + b.owner)[d := c], (a.rank + b.rank)[c := rank])
  }

  /** Two trees that share no node, with `c` and `d` the roots of theirs. */
  ghost predicate CanGraft(a: Layout, c: Node, b: Layout, d: Node)
  {
    && IsSound(a) && IsSound(b) && IsClosed(a) && IsClosed(b)
    && c in a.rows && d in b.rows && a.rows.Keys !! b.rows.Keys
    && c !in a.owner && d !in b.owner
  }

  /** Only laid-out nodes have owners. */
  ghost predicate IsClosed(l: Layout)
  {
    l.owner.Keys <= l.rows.Keys
  }

  lemma {:induction false} GraftIsSound(a: Layout, c: Node, b: Layout, d: Node)
    requires CanGraft(a, c, b, d)
    ensures IsSound(Graft(a, c, b, d)) && IsClosed(Graft(a, c, b, d)) && c !in Graft(a, c, b, d).owner
  {
    var g := Graft(a, c, b, d);
    forall n | n in g.rows ensures IsRow(g, n, g.rows[n]) {
      if n in a.rows {
        assert IsRow(a, n, a.rows[n]);
        assert d !in a.rows[n] && c !in a.rows[n];
      } else {
        assert IsRow(b, n, b.rows[n]);
        assert d !in b.rows[n] && c !in b.rows[n];
      }
    }
  }

  /** The content at a node depends only on the rows below it. */
  lemma {:induction false} SameContent(l: Layout, l': Layout, part: set<Node>, n: Node)
    requires IsSound(l) && IsSound(l') && part <= l.rows.Keys && part <= l'.rows.Keys && n in part
    requires forall m :: m in part ==> l.rows[m] == l'.rows[m] && forall c :: c in l.rows[m] ==> c in part
    ensures Content(l', n) == Content(l, n)
    decreases l.rank[n], 1, 0
  {
    assert IsRow(l, n, l.rows[n]) && IsRow(l', n, l'.rows[n]);
    SameContentAll(l, l', part, n, n, l.rows[n]);
  }

  lemma {:induction false} SameContentAll(l: Layout, l': Layout, part: set<Node>, n: Node, n': Node, row: seq<Node>)
    requires IsSound(l) && IsSound(l') && part <= l.rows.Keys && part <= l'.rows.Keys && n in l.rows && n' in l'.rows
    requires forall m :: m in part ==> l.rows[m] == l'.rows[m] && forall c :: c in l.rows[m] ==> c in part
    requires forall c :: c in row ==> c in part && l.rank[c] < l.rank[n] && l'.rank[c] < l'.rank[n']
    ensures ContentAll(l', n', row) == ContentAll(l, n, row)
    decreases l.rank[n], 0, |row|
  {
    if row != [] {
      SameContentAll(l, l', part, n, n', row[..|row| - 1]);
      SameContent(l, l', part, row[|row| - 1]);
    }
  }

  /** Grafting adds the content of `d` behind the children of `c`. */
  lemma {:induction false} GraftContent(a: Layout, c: Node, b: Layout, d: Node)
    requires CanGraft(a, c, b, d)
    ensures IsSound(Graft(a, c, b, d))
    ensures Content(Graft(a, c, b, d), c) == Tree(c.info, Content(a, c).kids + [Content(b, d)])
  {
    var g := Graft(a, c, b, d);
    GraftIsSound(a, c, b, d);
    assert IsRow(a, c, a.rows[c]) && IsRow(g, c, g.rows[c]);
    var below := a.rows.Keys - {c};
    forall m | m in below ensures g.rows[m] == a.rows[m] && forall x :: x in a.rows[m] ==> x in below {
      assert IsRow(a, m, a.rows[m]);
    }
    SameContentAll(a, g, below, c, c, a.rows[c]);
    forall m | m in b.rows ensures g.rows[m] == b.rows[m] && forall x :: x in b.rows[m] ==> x in b.rows.Keys {
      assert IsRow(b, m, b.rows[m]);
    }
    SameContent(b, g, b.rows.Keys, d);
    ContentAllStep(g, c, a.rows[c], d);
  }

  /** Every other row is as it was, and shares no node with the row that grows. */
  lemma {:induction false} OtherRowsStay(a: Layout, c: Node, b: Layout, d: Node, n: Node)
    requires CanGraft(a, c, b, d) && n in Graft(a, c, b, d).rows && n != c
    ensures var row := Graft(a, c, b, d).rows[n];
      && ((n in a.rows && row == a.rows[n]) || (n in b.rows && row == b.rows[n]))
      && forall x :: x in row ==> x != d && x !in a.rows[c]
  {
    assert IsRow(a, c, a.rows[c]);
    if n in a.rows { assert IsRow(a, n, a.rows[n]); } else { assert IsRow(b, n, b.rows[n]); }
  }

  /** `AppendChild`, for a whole tree: the links of both trees stay in step. */
  method AppendTree(c: Node, d: Node, ghost a: Layout, ghost b: Layout)
    requires CanGraft(a, c, b, d) && Linked(a) && Linked(b)
    requires d.parent == null && d.prevSibling == null && d.nextSibling == null
    modifies c`firstChild, c`lastChild, d`parent, d`prevSibling, Elements(a.rows[c])`nextSibling
    ensures IsSound(Graft(a, c, b, d)) && Linked(Graft(a, c, b, d))
  {
    ghost var g := Graft(a, c, b, d);
    GraftIsSound(a, c, b, d);
    assert IsRow(a, c, a.rows[c]) && Chained(c, a.rows[c]);
    assert d !in a.rows[c] && c !in a.rows[c] && g.rows[c] == a.rows[c] + [d] && d != c;
    AppendChild(c, d, a.rows[c]);
    hide Graft, CanGraft, IsSound, IsRow, IsClosed;
    forall n | n in g.rows ensures Chained(n, g.rows[n]) {
      if n != c {
        OtherRowsStay(a, c, b, d, n);
        ghost var row := g.rows[n];
        assert old(Chained(n, row));
        forall i | 0 <= i < |row| ensures InPlace(n, row, i) {
          assert row[i] in row && old(InPlace(n, row, i));
        }
      }
    }
  }

  /** A detached tree with root `c`. */
  ghost predicate IsDetached(c: Node, l: Layout)
    reads c, l.rows.Keys
  {
    && c in l.rows && IsSound(l) && IsClosed(l) && c !in l.owner && Linked(l)
    && c.parent == null && c.prevSibling == null && c.nextSibling == null
  }

  /** A new node is a detached tree by itself. */
  method NewDetached(info: Info) returns (c: Node, ghost l: Layout)
    ensures l.rows.Keys == {c} && fresh(c) && IsDetached(c, l) && Content(l, c) == Tree(info, [])
  {
    c := new Node(info);
    l := Layout(map[c := []], map[], map[c := 0]);
  }

  /** `cloneHTMLNode`: new nodes throughout, with the same content; the original is only read. */
  method Clone(node: Node, ghost l: Layout) returns (c: Node, ghost copy: Layout)
    requires IsSound(l) && Linked(l) && node in l.rows
    ensures fresh(copy.rows.Keys) && IsDetached(c, copy)
    ensures Content(copy, c) == Content(l, node)
    decreases l.rank[node], 1
  {
    assert IsRow(l, node, l.rows[node]) && Chained(node, l.rows[node]);
    ghost var row := l.rows[node];
    assert node.firstChild == At(row, 0) && ContentAll(l, node, row[..0]) == [];
    c, copy := NewDetached(node.info);
    hide IsDetached, Content, ContentAll;
    var child := node.firstChild;
    ghost var i := 0;
    while child != null
      invariant i <= |l.rows[node]| && child == At(l.rows[node], i)
      invariant fresh(copy.rows.Keys) && IsDetached(c, copy)
      invariant Content(copy, c) == Tree(node.info, ContentAll(l, node, l.rows[node][..i]))
      decreases |l.rows[node]| - i
    {
      child, copy := CloneChild(node, l, i, child, c, copy);
      i := i + 1;
    }
    assert l.rows[node][..i] == l.rows[node];
  }

  lemma {:induction false} ContentOfPrefix(l: Layout, n: Node, i: nat)
    requires IsSound(l) && n in l.rows && i < |l.rows[n]|
    requires (forall d :: d in l.rows[n] ==> d in l.rows && l.rank[d] < l.rank[n])
    ensures ContentAll(l, n, l.rows[n][..i + 1]) == ContentAll(l, n, l.rows[n][..i]) + [Content(l, l.rows[n][i])]
  {
    assert l.rows[n][..i + 1] == l.rows[n][..i] + [l.rows[n][i]];
    ContentAllStep(l, n, l.rows[n][..i], l.rows[n][i]);
  }

  /** One turn of the loop: appends a copy of one child and moves on to the next. */
  method CloneChild(node: Node, ghost l: Layout, ghost i: nat, child: Node, c: Node, ghost copy: Layout)
    returns (next: Node?, ghost grown: Layout)
    requires IsSound(l) && Linked(l) && node in l.rows && i < |l.rows[node]| && l.rows[node][i] == child
    requires IsDetached(c, copy) && copy.rows.Keys !! l.rows.Keys
    requires (forall d :: d in l.rows[node] ==> d in l.rows && l.rank[d] < l.rank[node])
    requires Content(copy, c) == Tree(node.info, ContentAll(l, node, l.rows[node][..i]))
    modifies copy.rows.Keys
    ensures next == At(l.rows[node], i + 1)
    ensures fresh(grown.rows.Keys - copy.rows.Keys) && IsDetached(c, grown)
    ensures Content(grown, c) == Tree(node.info, ContentAll(l, node, l.rows[node][..i + 1]))
    decreases l.rank[node], 0
  {
    assert Chained(node, l.rows[node]) && InPlace(node, l.rows[node], i);
    next := child.nextSibling;
    ContentOfPrefix(l, node, i);
    var d, sub := Clone(child, l);
    grown := AppendDetached(c, d, copy, sub);
  }

  method AppendDetached(c: Node, d: Node, ghost a: Layout, ghost b: Layout) returns (ghost g: Layout)
    requires IsDetached(c, a) && IsDetached(d, b) && a.rows.Keys !! b.rows.Keys
    modifies a.rows.Keys, d
    ensures g.rows.Keys == a.rows.Keys + b.rows.Keys && IsDetached(c, g)
    ensures Content(g, c) == Tree(c.info, Content(a, c).kids + [Content(b, d)])
  {
    assert IsRow(a, c, a.rows[c]);
    AppendTree(c, d, a, b);
    GraftIsSound(a, c, b, d);
    GraftContent(a, c, b, d);
    g := Graft(a, c, b, d);
  }
}
