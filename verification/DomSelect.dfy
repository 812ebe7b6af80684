/** Choosing the best candidate of a document: `findElements`, `collectRenderedDOMCandidates`
    and the selection loop of webutils/browser.go. */
module DomSelect {
  import opened Results
  import opened Strings
  import opened Shapes
  import opened Dom
  import opened DomContent

  // ----- a node occurs once in the preorder

  /** The test that removes nothing: then every node below is reached clearly. */
  const NOTHING: Test := (_: Info) => false

  ghost predicate IsBelow(l: Layout, n: Node, m: Node)
    requires IsSound(l) && n in l.rows
  {
    IsClear(NOTHING, l, n, m)
  }

  lemma {:induction false} PreorderMembers(l: Layout, n: Node, x: Node)
    requires IsSound(l) && n in l.rows
    ensures x in Preorder(l, n) <==> IsBelow(l, n, x)
    decreases l.rank[n], 1, 0
  {
    assert IsRow(l, n, l.rows[n]);
    PreorderAllMembers(l, n, l.rows[n], x);
  }

  lemma {:induction false} PreorderAllMembers(l: Layout, n: Node, row: seq<Node>, x: Node)
    requires IsSound(l) && n in l.rows && AreChildren(l, n, row)
    ensures x in PreorderAll(l, n, row) <==> exists c :: c in row && IsBelow(l, c, x)
    decreases l.rank[n], 0, |row|
  {
    if row != [] {
      var front, last := row[..|row| - 1], row[|row| - 1];
      assert row == front + [last];
      PreorderAllMembers(l, n, front, x);
      PreorderMembers(l, last, x);
    }
  }

  lemma {:induction false} BelowHasOwner(l: Layout, n: Node, x: Node) returns (m: Node)
    requires IsSound(l) && n in l.rows && IsBelow(l, n, x) && x != n
    ensures m in l.rows && x in l.rows[m]
    decreases l.rank[n]
  {
    assert IsRow(l, n, l.rows[n]);
    var c :| c in l.rows[n] && IsClear(NOTHING, l, c, x);
    if c == x {
      m := n;
    } else {
      m := BelowHasOwner(l, c, x);
    }
  }

  /** Different children have nothing below them in common. */
  lemma {:induction false} ChildrenAreApart(l: Layout, n: Node, a: Node, b: Node, x: Node)
    requires IsSound(l) && n in l.rows && a in l.rows[n] && b in l.rows[n] && a in l.rows && b in l.rows
    requires IsBelow(l, a, x) && IsBelow(l, b, x)
    ensures a == b
    decreases l.rank[n] as int - (if x in l.rows then l.rank[x] else 0)
  {
    assert IsRow(l, n, l.rows[n]);
    ClearFalls(NOTHING, l, a, x);
    if x == a && a != b {
      ClearComesFromOwner(NOTHING, l, b, n, x);
      ClearFalls(NOTHING, l, b, n);
    } else if x == b && a != b {
      ClearComesFromOwner(NOTHING, l, a, n, x);
      ClearFalls(NOTHING, l, a, n);
    } else if a != b {
      var m := BelowHasOwner(l, a, x);
      assert IsRow(l, m, l.rows[m]);
      ClearComesFromOwner(NOTHING, l, a, m, x);
      ClearComesFromOwner(NOTHING, l, b, m, x);
      ClearFalls(NOTHING, l, a, m);
      ChildrenAreApart(l, n, a, b, m);
    }
  }

  lemma {:induction false} PreorderIsDistinct(l: Layout, n: Node)
    requires IsSound(l) && n in l.rows
    ensures Distinct(Preorder(l, n))
    decreases l.rank[n], 1, 0
  {
    assert IsRow(l, n, l.rows[n]);
    var row := l.rows[n];
    PreorderAllIsDistinct(l, n, row);
    if n in PreorderAll(l, n, row) {
      PreorderAllMembers(l, n, row, n);
      var c :| c in row && IsBelow(l, c, n);
      ClearFalls(NOTHING, l, c, n);
    }
    DistinctConcat([n], PreorderAll(l, n, row));
  }

  lemma {:induction false} PreorderAllIsDistinct(l: Layout, n: Node, row: seq<Node>)
    requires IsSound(l) && n in l.rows && AreChildren(l, n, row) && Distinct(row)
    ensures Distinct(PreorderAll(l, n, row))
    decreases l.rank[n], 0, |row|
  {
    if row != [] {
      var front, last := row[..|row| - 1], row[|row| - 1];
      assert row == front + [last];
      DistinctConcat(front, [last]);
      PreorderAllIsDistinct(l, n, front);
      PreorderIsDistinct(l, last);
      forall x | x in PreorderAll(l, n, front) ensures x !in Preorder(l, last) {
        PreorderAllMembers(l, n, front, x);
        PreorderMembers(l, last, x);
        var c :| c in front && IsBelow(l, c, x);
        if IsBelow(l, last, x) { ChildrenAreApart(l, n, c, last, x); }
      }
      DistinctConcat(PreorderAll(l, n, front), Preorder(l, last));
    }
  }

  // ----- finding elements

  function Matching(nodes: seq<Node>, match': Test): seq<Node>
  {
    if nodes == [] then []
    else
      var before, last := Matching(nodes[..|nodes| - 1], match'), nodes[|nodes| - 1];
      if match'(last.info) then before + [last] else before
  }

  lemma {:induction false} MatchingConcat(a: seq<Node>, b: seq<Node>, match': Test)
    ensures Matching(a + b, match') == Matching(a, match') + Matching(b, match')
  {
    if b == [] {
      assert a + b == a;
    } else {
      assert (a + b)[..|a + b| - 1] == a + b[..|b| - 1];
      MatchingConcat(a, b[..|b| - 1], match');
    }
  }

  /** The matches among the first `i` subtrees below `n`. */
  ghost function MatchesBelow(l: Layout, n: Node, i: nat, match': Test): seq<Node>
    requires IsSound(l) && n in l.rows && i <= |l.rows[n]|
  {
    assert IsRow(l, n, l.rows[n]);
    Matching(PreorderAll(l, n, l.rows[n][..i]), match')
  }

  lemma {:induction false} MatchesStep(l: Layout, n: Node, i: nat, match': Test)
    requires IsSound(l) && n in l.rows && i < |l.rows[n]|
    ensures var c := l.rows[n][i];
      && c in l.rows && l.rank[c] < l.rank[n]
      && MatchesBelow(l, n, i + 1, match') == MatchesBelow(l, n, i, match') + Matching(Preorder(l, c), match')
  {
    var row := l.rows[n];
    assert IsRow(l, n, row);
    assert row[..i + 1] == row[..i] + [row[i]];
    PreorderAllStep(l, n, row[..i], row[i]);
    MatchingConcat(PreorderAll(l, n, row[..i]), Preorder(l, row[i]), match');
  }

  lemma {:induction false} MatchesEnds(l: Layout, n: Node, match': Test)
    requires IsSound(l) && n in l.rows
    ensures MatchesBelow(l, n, 0, match') == []
    ensures Matching(Preorder(l, n), match')
      == (if match'(n.info) then [n] else []) + MatchesBelow(l, n, |l.rows[n]|, match')
  {
    var row := l.rows[n];
    assert IsRow(l, n, row);
    assert row[..0] == [] && row[..|row|] == row && [n][..0] == [];
    MatchingConcat([n], PreorderAll(l, n, row), match');
  }

  /** `findElements`: the matching nodes, in preorder. `matches` is what the walk has found so far. */
  method FindElements(node: Node, match': Test, ghost l: Layout, matches: seq<Node>) returns (found: seq<Node>)
    requires IsSound(l) && Linked(l) && node in l.rows
    ensures found == matches + Matching(Preorder(l, node), match')
    decreases l.rank[node]
  {
    ghost var row, i := l.rows[node], 0;
    assert Chained(node, row);
    MatchesEnds(l, node, match');
    found := matches + if match'(node.info) then [node] else [];
    ghost var before := found;
    var child := node.firstChild;
    while child != null
      invariant i <= |row| && child == At(row, i)
      invariant found == before + MatchesBelow(l, node, i, match')
      decreases |row| - i
    {
      assert InPlace(node, row, i);
      MatchesStep(l, node, i, match');
      found := FindElements(child, match', l, found);
      i := i + 1;
      child := child.nextSibling;
    }
  }

  // ----- collecting candidates

  datatype Candidate = Candidate(node: Node, bonus: int, kind: string)

  const MAIN_BONUS := 60
  const ROLE_MAIN_BONUS := 50
  const ARTICLE_BONUS := 40
  const BODY_BONUS := 0

  function KindOf(bonus: int): string
  {
    if bonus == MAIN_BONUS then "main"
    else if bonus == ROLE_MAIN_BONUS then "role_main"
    else if bonus == ARTICLE_BONUS then "article"
    else "body"
  }

  function Tagged(nodes: seq<Node>, bonus: int): (r: seq<Candidate>)
    ensures |r| == |nodes| && forall i :: 0 <= i < |r| ==> r[i] == Candidate(nodes[i], bonus, KindOf(bonus))
  {
    seq(|nodes|, i requires 0 <= i < |nodes| => Candidate(nodes[i], bonus, KindOf(bonus)))
  }

  /** The nodes of `nodes` that are not in `seen`; `nodes` has no duplicates. */
  function Unseen(nodes: seq<Node>, seen: set<Node>): seq<Node>
  {
    if nodes == [] then []
    else
      var before, last := Unseen(nodes[..|nodes| - 1], seen), nodes[|nodes| - 1];
      if last in seen then before else before + [last]
  }

  /** The closure `appendMatches`. */
  method AppendMatches(nodes: seq<Node>, bonus: int, candidates: seq<Candidate>, seen: set<Node>)
    returns (grown: seq<Candidate>, seen': set<Node>)
    requires Distinct(nodes)
    ensures grown == candidates + Tagged(Unseen(nodes, seen), bonus)
    ensures seen' == seen + Elements(nodes)
  {
    grown, seen' := candidates, seen;
    for i := 0 to |nodes|
      invariant grown == candidates + Tagged(Unseen(nodes[..i], seen), bonus)
      invariant seen' == seen + Elements(nodes[..i])
    {
      var node := nodes[i];
      assert nodes[..i + 1][..i] == nodes[..i];
      assert node !in nodes[..i];
      if node !in seen' {
        seen' := seen' + {node};
        var kind := "body";
        if bonus == MAIN_BONUS {
          kind := "main";
        } else if bonus == ROLE_MAIN_BONUS {
          kind := "role_main";
        } else if bonus == ARTICLE_BONUS {
          kind := "article";
        }
        grown := grown + [Candidate(node, bonus, kind)];
      }
    }
    assert nodes[..|nodes|] == nodes;
  }

  /** The four tests a node can become a candidate by, best first. */
  datatype Classes = Classes(main: Test, roleMain: Test, article: Test, body: Test)

  const DOCUMENT_CLASSES := Classes(
    (n: Info) => HasTag(n, "main"),
    (n: Info) => HasAttrValue(n, "role", "main"),
    (n: Info) => HasTag(n, "article"),
    (n: Info) => HasTag(n, "body"))

  /** The classes of the program: elements by their tag, and nodes of any kind by their role. */
  lemma {:induction false} DocumentClassesAre(n: Info)
    ensures DOCUMENT_CLASSES.main(n) <==> n.kind == ElementNode && EqualFold(n.data, "main")
    ensures DOCUMENT_CLASSES.roleMain(n) <==> EqualFold(TrimSpace(GetAttr(n.attrs, "role")), "main")
    ensures DOCUMENT_CLASSES.article(n) <==> n.kind == ElementNode && EqualFold(n.data, "article")
    ensures DOCUMENT_CLASSES.body(n) <==> n.kind == ElementNode && EqualFold(n.data, "body")
  {
  }

  /** The largest bonus of any class that a node is in. */
  function BestBonus(classes: Classes, n: Info): Option<int>
  {
    if classes.main(n) then Some(MAIN_BONUS)
    else if classes.roleMain(n) then Some(ROLE_MAIN_BONUS)
    else if classes.article(n) then Some(ARTICLE_BONUS)
    else if classes.body(n) then Some(BODY_BONUS)
    else None
  }

  /** The nodes whose best class carries `bonus`. */
  function WithBonus(classes: Classes, nodes: seq<Node>, bonus: int): seq<Node>
  {
    Matching(nodes, n => BestBonus(classes, n) == Some(bonus))
  }

  /** The candidates among `nodes`: listed by falling bonus and, within one bonus, in order. */
  function CandidatesOf(classes: Classes, nodes: seq<Node>): seq<Candidate>
  {
    Tagged(WithBonus(classes, nodes, MAIN_BONUS), MAIN_BONUS)
    + Tagged(WithBonus(classes, nodes, ROLE_MAIN_BONUS), ROLE_MAIN_BONUS)
    + Tagged(WithBonus(classes, nodes, ARTICLE_BONUS), ARTICLE_BONUS)
    + Tagged(WithBonus(classes, nodes, BODY_BONUS), BODY_BONUS)
  }

  lemma {:induction false} MatchingIsPart(nodes: seq<Node>, match': Test)
    ensures forall n :: n in Matching(nodes, match') <==> n in nodes && match'(n.info)
    ensures Distinct(nodes) ==> Distinct(Matching(nodes, match'))
  {
    if nodes != [] {
      var front := nodes[..|nodes| - 1];
      MatchingIsPart(front, match');
      assert nodes == front + [nodes[|nodes| - 1]];
    }
  }

  /** Matching and then leaving out what has been seen is matching a narrower test. */
  lemma {:induction false} UnseenOfMatching(nodes: seq<Node>, match': Test, seen: set<Node>, narrow: Test)
    requires forall n :: n in nodes ==> (narrow(n.info) <==> match'(n.info) && n !in seen)
    ensures Unseen(Matching(nodes, match'), seen) == Matching(nodes, narrow)
  {
    if nodes != [] {
      var front, last := nodes[..|nodes| - 1], nodes[|nodes| - 1];
      assert nodes == front + [last];
      UnseenOfMatching(front, match', seen, narrow);
      if match'(last.info) {
        var hits := Matching(nodes, match');
        assert hits[..|hits| - 1] == Matching(front, match');
      }
    }
  }

  /** `collectRenderedDOMCandidates`, which walks the document once for each class. */
  method CollectCandidates(document: Node, classes: Classes, ghost l: Layout) returns (candidates: seq<Candidate>)
    requires IsSound(l) && Linked(l) && document in l.rows
    ensures candidates == CandidatesOf(classes, Preorder(l, document))
  {
    hide IsSound, Linked, Preorder, Distinct, Matching, Tagged;
    ghost var nodes := Preorder(l, document);
    PreorderIsDistinct(l, document);
    var seen: set<Node> := {};
    candidates := [];
    candidates, seen := CollectClass(document, classes.main, MAIN_BONUS, l, candidates, seen,
      n => BestBonus(classes, n) == Some(MAIN_BONUS));
    candidates, seen := CollectClass(document, classes.roleMain, ROLE_MAIN_BONUS, l, candidates, seen,
      n => BestBonus(classes, n) == Some(ROLE_MAIN_BONUS));
    candidates, seen := CollectClass(document, classes.article, ARTICLE_BONUS, l, candidates, seen,
      n => BestBonus(classes, n) == Some(ARTICLE_BONUS));
    candidates, seen := CollectClass(document, classes.body, BODY_BONUS, l, candidates, seen,
      n => BestBonus(classes, n) == Some(BODY_BONUS));
  }

  /** One of the four calls: finds the nodes of a class and appends those that are new. */
  method CollectClass(document: Node, match': Test, bonus: int, ghost l: Layout, candidates: seq<Candidate>, seen: set<Node>,
                      ghost narrow: Test)
    returns (grown: seq<Candidate>, seen': set<Node>)
    requires IsSound(l) && Linked(l) && document in l.rows && Distinct(Preorder(l, document))
    requires forall n :: n in Preorder(l, document) ==> (narrow(n.info) <==> match'(n.info) && n !in seen)
    ensures grown == candidates + Tagged(Matching(Preorder(l, document), narrow), bonus)
    ensures forall n :: n in Preorder(l, document) ==> (n in seen' <==> n in seen || match'(n.info))
  {
    var found := FindElements(document, match', l, []);
    ghost var nodes := Preorder(l, document);
    assert found == Matching(nodes, match');
    MatchingIsPart(nodes, match');
    UnseenOfMatching(nodes, match', seen, narrow);
    grown, seen' := AppendMatches(found, bonus, candidates, seen);
  }

  /** The candidates are the nodes of some class, each with the bonus and the kind of the best of
      its classes. */
  lemma {:induction false} CandidateMembers(classes: Classes, nodes: seq<Node>, c: Candidate)
    ensures c in CandidatesOf(classes, nodes) <==>
      var n := c.node.info;
      && c.node in nodes
      && (|| (classes.main(n) && c.bonus == 60 && c.kind == "main")
          || (!classes.main(n) && classes.roleMain(n) && c.bonus == 50 && c.kind == "role_main")
          || (!classes.main(n) && !classes.roleMain(n) && classes.article(n) && c.bonus == 40 && c.kind == "article")
          || (!classes.main(n) && !classes.roleMain(n) && !classes.article(n) && classes.body(n) && c.bonus == 0 && c.kind == "body"))
  {
    TaggedMembers(classes, nodes, MAIN_BONUS, c);
    TaggedMembers(classes, nodes, ROLE_MAIN_BONUS, c);
    TaggedMembers(classes, nodes, ARTICLE_BONUS, c);
    TaggedMembers(classes, nodes, BODY_BONUS, c);
  }

  lemma {:induction false} TaggedMembers(classes: Classes, nodes: seq<Node>, bonus: int, c: Candidate)
    ensures c in Tagged(WithBonus(classes, nodes, bonus), bonus) <==>
      c.node in nodes && BestBonus(classes, c.node.info) == Some(bonus) && c.bonus == bonus && c.kind == KindOf(bonus)
  {
    var hits := WithBonus(classes, nodes, bonus);
    MatchingIsPart(nodes, n => BestBonus(classes, n) == Some(bonus));
    if c.node in hits && c.bonus == bonus && c.kind == KindOf(bonus) {
      var i :| 0 <= i < |hits| && hits[i] == c.node;
      assert Tagged(hits, bonus)[i] == c;
    }
  }

  /** No node is a candidate twice, and better classes come first. */
  lemma {:induction false} CandidatesAreOrdered(classes: Classes, nodes: seq<Node>, i: nat, j: nat)
    requires Distinct(nodes) && i < j < |CandidatesOf(classes, nodes)|
    ensures var all := CandidatesOf(classes, nodes);
      all[i].node != all[j].node && all[i].bonus >= all[j].bonus
  {
    var all := CandidatesOf(classes, nodes);
    CandidateMembers(classes, nodes, all[i]);
    CandidateMembers(classes, nodes, all[j]);
    MatchingIsPart(nodes, n => BestBonus(classes, n) == Some(MAIN_BONUS));
    MatchingIsPart(nodes, n => BestBonus(classes, n) == Some(ROLE_MAIN_BONUS));
    MatchingIsPart(nodes, n => BestBonus(classes, n) == Some(ARTICLE_BONUS));
    MatchingIsPart(nodes, n => BestBonus(classes, n) == Some(BODY_BONUS));
  }
}
