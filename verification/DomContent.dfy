/** What cleaning a linked tree means: the tree it leaves is the pruned value of the tree
    it found, and the nodes it leaves are those that no removable node hides. */
module DomContent {
  import opened Shapes
  import opened Dom

  /** The tree that hangs at `n`, as a value. */
  ghost function Content(l: Layout, n: Node): Tree
    requires IsSound(l) && n in l.rows
    decreases l.rank[n], 1, 0
  {
    assert IsRow(l, n, l.rows[n]);
    Tree(n.info, ContentAll(l, n, l.rows[n]))
  }

  ghost function ContentAll(l: Layout, n: Node, row: seq<Node>): (r: seq<Tree>)
    requires IsSound(l) && n in l.rows && forall c :: c in row ==> c in l.rows && l.rank[c] < l.rank[n]
    ensures |r| == |row|
    decreases l.rank[n], 0, |row|
  {
    if row == [] then []
    else ContentAll(l, n, row[..|row| - 1]) + [Content(l, row[|row| - 1])]
  }

  /** The nodes of the tree at `n`, parents before children, siblings in order. */
  ghost function Preorder(l: Layout, n: Node): seq<Node>
    requires IsSound(l) && n in l.rows
    decreases l.rank[n], 1, 0
  {
    assert IsRow(l, n, l.rows[n]);
    [n] + PreorderAll(l, n, l.rows[n])
  }

  ghost function PreorderAll(l: Layout, n: Node, row: seq<Node>): seq<Node>
    requires IsSound(l) && n in l.rows && forall c :: c in row ==> c in l.rows && l.rank[c] < l.rank[n]
    decreases l.rank[n], 0, |row|
  {
    if row == [] then []
    else PreorderAll(l, n, row[..|row| - 1]) + Preorder(l, row[|row| - 1])
  }

  // ----- clearness, seen from below

  /** A clear node's children are clear unless they are removable. */
  lemma {:induction false} ClearExtends(noise: Test, l: Layout, n: Node, m: Node, c: Node)
    requires IsSound(l) && n in l.rows && m in l.rows && IsClear(noise, l, n, m)
    requires c in l.rows[m] && !noise(c.info)
    ensures c in l.rows && IsClear(noise, l, n, c)
    decreases l.rank[n]
  {
    assert IsRow(l, m, l.rows[m]) && IsRow(l, n, l.rows[n]);
    if m == n {
      assert IsClear(noise, l, c, c);
    } else {
      var d :| d in l.rows[n] && !noise(d.info) && IsClear(noise, l, d, m);
      ClearExtends(noise, l, d, m, c);
    }
  }

  /** A clear node below `n` is not removable and its parent is clear: there is only one way down. */
  lemma {:induction false} ClearComesFromOwner(noise: Test, l: Layout, n: Node, m: Node, c: Node)
    requires IsSound(l) && n in l.rows && m in l.rows && c in l.rows[m] && c != n
    requires IsClear(noise, l, n, c)
    ensures !noise(c.info) && IsClear(noise, l, n, m)
    decreases l.rank[n]
  {
    assert IsRow(l, n, l.rows[n]) && IsRow(l, m, l.rows[m]);
    var d :| d in l.rows[n] && !noise(d.info) && IsClear(noise, l, d, c);
    if d == c {
      assert m == n;
    } else {
      ClearComesFromOwner(noise, l, d, m, c);
    }
  }

  // ----- the content of the cleaned tree

  /** `l'` has the cleaned rows at the nodes that `n` reaches clearly. */
  ghost predicate IsCleaning(noise: Test, l: Layout, n: Node, l': Layout)
    requires IsSound(l) && n in l.rows
  {
    && IsSound(l') && l'.rank == l.rank && l'.rows.Keys == l.rows.Keys
    && forall m :: m in l.rows && IsClear(noise, l, n, m) ==> l'.rows[m] == Kept(noise, l.rows[m])
  }

  /** Seen as a value from any node that is reached clearly, the cleaned tree is pruned. */
  lemma {:induction false} CleanedContent(noise: Test, l: Layout, n: Node, l': Layout, m: Node)
    requires IsSound(l) && n in l.rows && m in l.rows && IsClear(noise, l, n, m) && IsCleaning(noise, l, n, l')
    ensures Content(l', m) == Prune(noise, Content(l, m))
    decreases l.rank[m], 1, 0
  {
    assert IsRow(l, m, l.rows[m]);
    CleanedContentAll(noise, l, n, l', m, l.rows[m]);
  }

  ghost predicate AreChildren(l: Layout, m: Node, row: seq<Node>)
    requires IsSound(l) && m in l.rows
  {
    forall c :: c in row ==> c in l.rows[m] && c in l.rows && l.rank[c] < l.rank[m]
  }

  lemma {:induction false} CleanedContentAll(noise: Test, l: Layout, n: Node, l': Layout, m: Node, row: seq<Node>)
    requires IsSound(l) && n in l.rows && m in l.rows && IsClear(noise, l, n, m) && IsCleaning(noise, l, n, l')
    requires AreChildren(l, m, row)
    ensures AreChildren(l, m, Kept(noise, row))
    ensures ContentAll(l', m, Kept(noise, row)) == PruneAll(noise, ContentAll(l, m, row))
    decreases l.rank[m], 0, |row|
  {
    KeptIsPart(noise, row);
    if row != [] {
      var front, c := row[..|row| - 1], row[|row| - 1];
      CleanedContentAll(noise, l, n, l', m, front);
      PruneAllStep(noise, ContentAll(l, m, front), Content(l, c));
      if !noise(c.info) {
        ClearExtends(noise, l, n, m, c);
        CleanedContent(noise, l, n, l', c);
        ContentAllStep(l', m, Kept(noise, front), c);
      }
    }
  }

  lemma {:induction false} PruneAllStep(noise: Test, front: seq<Tree>, last: Tree)
    ensures PruneAll(noise, front + [last]) == PruneAll(noise, front) + if noise(last.info) then [] else [Prune(noise, last)]
  {
    assert (front + [last])[..|front|] == front;
  }

  lemma {:induction false} ContentAllStep(l: Layout, m: Node, front: seq<Node>, c: Node)
    requires IsSound(l) && m in l.rows && forall d :: d in front + [c] ==> d in l.rows && l.rank[d] < l.rank[m]
    ensures (forall d :: d in front ==> d in front + [c]) && c in front + [c]
    ensures ContentAll(l, m, front + [c]) == ContentAll(l, m, front) + [Content(l, c)]
  {
    assert (front + [c])[..|front|] == front;
  }

  /** After cleaning below `n`, the tree at `n` is the pruned value of what it was. */
  lemma {:induction false} CleaningPrunes(noise: Test, l: Layout, n: Node)
    requires IsSound(l) && n in l.rows
    ensures IsSound(CleanedLayout(noise, l, n))
    ensures Content(CleanedLayout(noise, l, n), n) == Prune(noise, Content(l, n))
  {
    CleanedIsSound(noise, l, n);
    CleanedContent(noise, l, n, CleanedLayout(noise, l, n), n);
  }

  // ----- the nodes of the cleaned tree

  ghost function Select(nodes: seq<Node>, keep: set<Node>): seq<Node>
  {
    if nodes == [] then []
    else Select(nodes[..|nodes| - 1], keep) + if nodes[|nodes| - 1] in keep then [nodes[|nodes| - 1]] else []
  }

  lemma {:induction false} SelectConcat(a: seq<Node>, b: seq<Node>, keep: set<Node>)
    ensures Select(a + b, keep) == Select(a, keep) + Select(b, keep)
  {
    if b == [] {
      assert a + b == a;
    } else {
      assert (a + b)[..|a + b| - 1] == a + b[..|b| - 1];
      SelectConcat(a, b[..|b| - 1], keep);
    }
  }

  ghost function ClearNodes(noise: Test, l: Layout, n: Node): set<Node>
    requires IsSound(l) && n in l.rows
  {
    set m | m in l.rows && IsClear(noise, l, n, m)
  }

  /** Seen from a node that is reached clearly, the cleaned tree holds the clear nodes;
      below any other node nothing is clear. */
  lemma {:induction false} CleanedPreorder(noise: Test, l: Layout, n: Node, l': Layout, m: Node)
    requires IsSound(l) && n in l.rows && m in l.rows && l.rank[m] <= l.rank[n] && IsCleaning(noise, l, n, l')
    ensures Select(Preorder(l, m), ClearNodes(noise, l, n)) == if IsClear(noise, l, n, m) then Preorder(l', m) else []
    decreases l.rank[m], 1, 0
  {
    assert IsRow(l, m, l.rows[m]);
    var clear := ClearNodes(noise, l, n);
    SelectConcat([m], PreorderAll(l, m, l.rows[m]), clear);
    CleanedPreorderAll(noise, l, n, l', m, l.rows[m]);
    assert Select([m], clear) == if m in clear then [m] else [] by {
      assert [m][..0] == [];
    }
  }

  lemma {:induction false} CleanedPreorderAll(noise: Test, l: Layout, n: Node, l': Layout, m: Node, row: seq<Node>)
    requires IsSound(l) && n in l.rows && m in l.rows && l.rank[m] <= l.rank[n] && IsCleaning(noise, l, n, l')
    requires AreChildren(l, m, row)
    ensures AreChildren(l, m, Kept(noise, row))
    ensures Select(PreorderAll(l, m, row), ClearNodes(noise, l, n))
      == if IsClear(noise, l, n, m) then PreorderAll(l', m, Kept(noise, row)) else []
    decreases l.rank[m], 0, |row|
  {
    KeptIsPart(noise, row);
    if row != [] {
      var front, c := row[..|row| - 1], row[|row| - 1];
      CleanedPreorderAll(noise, l, n, l', m, front);
      SelectConcat(PreorderAll(l, m, front), Preorder(l, c), ClearNodes(noise, l, n));
      CleanedPreorder(noise, l, n, l', c);
      ClearIffOwnerIsClear(noise, l, n, m, c);
      if IsClear(noise, l, n, c) {
        PreorderAllStep(l', m, Kept(noise, front), c);
      }
    }
  }

  lemma {:induction false} ClearIffOwnerIsClear(noise: Test, l: Layout, n: Node, m: Node, c: Node)
    requires IsSound(l) && n in l.rows && m in l.rows && c in l.rows[m] && l.rank[m] <= l.rank[n]
    ensures IsClear(noise, l, n, c) <==> IsClear(noise, l, n, m) && !noise(c.info)
  {
    assert IsRow(l, m, l.rows[m]);
    if IsClear(noise, l, n, c) { ClearComesFromOwner(noise, l, n, m, c); }
    if IsClear(noise, l, n, m) && !noise(c.info) { ClearExtends(noise, l, n, m, c); }
  }

  lemma {:induction false} PreorderAllStep(l: Layout, m: Node, front: seq<Node>, c: Node)
    requires IsSound(l) && m in l.rows && forall d :: d in front + [c] ==> d in l.rows && l.rank[d] < l.rank[m]
    ensures (forall d :: d in front ==> d in front + [c]) && c in front + [c]
    ensures PreorderAll(l, m, front + [c]) == PreorderAll(l, m, front) + Preorder(l, c)
  {
    assert (front + [c])[..|front|] == front;
  }

  /** The survivors of cleaning below `n` are the nodes with no removable node between them
      and `n`, in the order they had. `n` itself always survives. */
  lemma {:induction false} SurvivorsAreTheClearNodes(noise: Test, l: Layout, n: Node)
    requires IsSound(l) && n in l.rows
    ensures IsSound(CleanedLayout(noise, l, n))
    ensures Preorder(CleanedLayout(noise, l, n), n) == Select(Preorder(l, n), ClearNodes(noise, l, n))
    ensures n in Preorder(CleanedLayout(noise, l, n), n)
  {
    CleanedIsSound(noise, l, n);
    CleanedPreorder(noise, l, n, CleanedLayout(noise, l, n), n);
  }
}
