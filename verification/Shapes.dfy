/** The pure side of the rendered-DOM extraction (webutils/browser.go): what a document
    tree looks like, which nodes are noise, and what pruning leaves. */
module Shapes {
  import opened Strings

  datatype Kind = ErrorNode | TextNode | DocumentNode | ElementNode | CommentNode | DoctypeNode | RawNode
  datatype Attribute = Attribute(namespace: string, key: string, val: string)

  /** The fields of an `html.Node` that are not links; no code here changes them. */
  datatype Info = Info(kind: Kind, atom: nat, data: string, namespace: string, attrs: seq<Attribute>)

  /** A document as a value. */
  datatype Tree = Tree(info: Info, kids: seq<Tree>)

  // ----- ASCII-insensitive comparison, with the non-ASCII characters that fold into ASCII

  /** The representative of a character under Unicode simple folding, as far as it is ASCII. */
  function Fold(c: char): char
  {
    if 'A' <= c <= 'Z' then c - 'A' + 'a'
    else if c == '\U{17f}' then 's'
    else if c == '\U{212a}' then 'k'
    else c
  }

  /** `unicode.ToLower`, as far as the result is ASCII. */
  function Lower(c: char): char
  {
    if 'A' <= c <= 'Z' then c - 'A' + 'a'
    else if c == '\U{130}' then 'i'
    else if c == '\U{212a}' then 'k'
    else c
  }

  function ToLower(s: string): string
  {
    seq(|s|, i requires 0 <= i < |s| => Lower(s[i]))
  }

  /** `strings.EqualFold` against an ASCII constant. */
  predicate EqualFold(s: string, ascii: string)
  {
    |s| == |ascii| && forall i :: 0 <= i < |s| ==> Fold(s[i]) == Fold(ascii[i])
  }

  // ----- node tests

  function GetAttr(attrs: seq<Attribute>, key: string): string
  {
    if attrs == [] then ""
    else if EqualFold(attrs[0].key, key) then attrs[0].val
    else GetAttr(attrs[1..], key)
  }

  predicate HasBooleanAttr(node: Info, key: string)
  {
    exists i :: 0 <= i < |node.attrs| && EqualFold(node.attrs[i].key, key)
  }

  predicate HasAttrValue(node: Info, key: string, value: string)
  {
    EqualFold(TrimSpace(GetAttr(node.attrs, key)), value)
  }

  predicate HasTag(node: Info, tag: string)
  {
    node.kind == ElementNode && EqualFold(node.data, tag)
  }

  const NOISE_TAGS := ["script", "style", "template", "noscript", "dialog", "nav", "aside", "footer", "iframe"]
  const NOISE_ROLES := ["dialog", "alertdialog", "navigation", "complementary", "contentinfo", "banner"]
  const NOISE_KEYS := ["id", "class", "aria-label", "data-testid", "data-test", "data-qa"]
  const NOISE_TOKENS := ["cookie", "consent", "gdpr", "onetrust", "modal", "overlay", "popup", "drawer"]

  predicate HasNoiseIdentifier(node: Info)
  {
    exists key | key in NOISE_KEYS ::
      exists token | token in NOISE_TOKENS :: Index(ToLower(TrimSpace(GetAttr(node.attrs, key))), token) >= 0
  }

  /** `shouldRemoveRenderedDOMNode`. */
  predicate ShouldRemove(node: Info)
  {
    && node.kind == ElementNode
    && (|| ToLower(node.data) in NOISE_TAGS
        || HasBooleanAttr(node, "hidden") || HasBooleanAttr(node, "inert")
        || (exists role | role in NOISE_ROLES :: HasAttrValue(node, "role", role))
        || HasAttrValue(node, "aria-hidden", "true") || HasAttrValue(node, "aria-modal", "true")
        || HasNoiseIdentifier(node))
  }

  /** What an attribute says is what the first one with its key says. */
  lemma {:induction false} FirstAttrSays(attrs: seq<Attribute>, key: string, i: nat)
    requires i <= |attrs| && forall j :: 0 <= j < i ==> !EqualFold(attrs[j].key, key)
    requires i < |attrs| ==> EqualFold(attrs[i].key, key)
    ensures GetAttr(attrs, key) == if i < |attrs| then attrs[i].val else ""
  {
    if i > 0 { FirstAttrSays(attrs[1..], key, i - 1); }
  }

  /** Texts in ASCII fold alike exactly if they are alike in small letters. */
  lemma {:induction false} AsciiFoldsToLower(s: string, t: string)
    requires forall i :: 0 <= i < |s| ==> s[i] < '\U{80}'
    requires forall i :: 0 <= i < |t| ==> t[i] < '\U{80}'
    ensures EqualFold(s, t) <==> ToLower(s) == ToLower(t)
    ensures forall i :: 0 <= i < |s| ==> ToLower(s)[i] == if 'A' <= s[i] <= 'Z' then s[i] + ' ' else s[i]
  {
    if ToLower(s) == ToLower(t) {
      forall i | 0 <= i < |s| ensures Fold(s[i]) == Fold(t[i]) {
        assert ToLower(s)[i] == ToLower(t)[i];
      }
    }
  }

  ghost predicate OccursAt(s: string, token: string, i: nat)
  {
    i + |token| <= |s| && s[i..i + |token|] == token
  }

  ghost predicate Contains(s: string, token: string)
  {
    exists i: nat :: OccursAt(s, token, i)
  }

  lemma {:induction false} IndexTellsContained(s: string, token: string)
    ensures Index(s, token) >= 0 <==> Contains(s, token)
  {
    if i: nat :| OccursAt(s, token, i) {
      IndexIsFirst(s, token, i);
    }
    if Index(s, token) >= 0 { assert OccursAt(s, token, Index(s, token)); }
  }

  /** Exactly an element is noise, and only by its tag, by being hidden, inert or modal, by its
      role, or by a word in one of its identifiers. */
  lemma {:induction false} NoiseIs(node: Info)
    ensures ShouldRemove(node) <==>
      && node.kind == ElementNode
      && (|| ToLower(node.data) in ["script", "style", "template", "noscript", "dialog", "nav", "aside", "footer", "iframe"]
          || (exists i :: 0 <= i < |node.attrs| && (EqualFold(node.attrs[i].key, "hidden") || EqualFold(node.attrs[i].key, "inert")))
          || (exists role :: role in ["dialog", "alertdialog", "navigation", "complementary", "contentinfo", "banner"]
                && EqualFold(TrimSpace(GetAttr(node.attrs, "role")), role))
          || EqualFold(TrimSpace(GetAttr(node.attrs, "aria-hidden")), "true")
          || EqualFold(TrimSpace(GetAttr(node.attrs, "aria-modal")), "true")
          || (exists key, token ::
                && key in ["id", "class", "aria-label", "data-testid", "data-test", "data-qa"]
                && token in ["cookie", "consent", "gdpr", "onetrust", "modal", "overlay", "popup", "drawer"]
                && Contains(ToLower(TrimSpace(GetAttr(node.attrs, key))), token)))
  {
    hide EqualFold, ToLower, TrimSpace, GetAttr, Contains, Index;
    forall key, token
      ensures Index(ToLower(TrimSpace(GetAttr(node.attrs, key))), token) >= 0 <==> Contains(ToLower(TrimSpace(GetAttr(node.attrs, key))), token)
    {
      IndexTellsContained(ToLower(TrimSpace(GetAttr(node.attrs, key))), token);
    }
  }

  // ----- pruning values, for any test of what is noise

  type Test = Info -> bool

  /** The tree without its removable nodes and what hangs below them; the root stays. */
  function Prune(noise: Test, t: Tree): Tree
  {
    Tree(t.info, PruneAll(noise, t.kids))
  }

  function PruneAll(noise: Test, kids: seq<Tree>): seq<Tree>
  {
    if kids == [] then []
    else
      var before, last := PruneAll(noise, kids[..|kids| - 1]), kids[|kids| - 1];
      if noise(last.info) then before else before + [Prune(noise, last)]
  }

  /** Below the root nothing is removable. */
  predicate IsPruned(noise: Test, t: Tree)
  {
    AreKept(noise, t.kids)
  }

  predicate AreKept(noise: Test, kids: seq<Tree>)
  {
    forall i :: 0 <= i < |kids| ==> !noise(kids[i].info) && IsPruned(noise, kids[i])
  }

  lemma {:induction false} PruneIsPruned(noise: Test, t: Tree)
    ensures IsPruned(noise, Prune(noise, t))
  {
    PruneAllIsPruned(noise, t.kids);
  }

  lemma {:induction false} PruneAllIsPruned(noise: Test, kids: seq<Tree>)
    ensures AreKept(noise, PruneAll(noise, kids))
  {
    if kids != [] {
      PruneIsPruned(noise, kids[|kids| - 1]);
      PruneAllIsPruned(noise, kids[..|kids| - 1]);
    }
  }

  lemma {:induction false} PruneOfPruned(noise: Test, t: Tree)
    requires IsPruned(noise, t)
    ensures Prune(noise, t) == t
  {
    PruneAllOfPruned(noise, t.kids);
  }

  lemma {:induction false} PruneAllOfPruned(noise: Test, kids: seq<Tree>)
    requires AreKept(noise, kids)
    ensures PruneAll(noise, kids) == kids
  {
    if kids != [] {
      PruneOfPruned(noise, kids[|kids| - 1]);
      PruneAllOfPruned(noise, kids[..|kids| - 1]);
      assert kids == kids[..|kids| - 1] + [kids[|kids| - 1]];
    }
  }

  /** Cleaning leaves nothing to clean, so cleaning twice is cleaning once. */
  lemma {:induction false} PruneIsIdempotent(noise: Test, t: Tree)
    ensures IsPruned(noise, Prune(noise, t))
    ensures Prune(noise, Prune(noise, t)) == Prune(noise, t)
  {
    PruneIsPruned(noise, t);
    PruneOfPruned(noise, Prune(noise, t));
  }
}
