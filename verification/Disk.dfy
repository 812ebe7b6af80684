/** A single-writer file tree with symbolic links, the link-following walk of
    `filepath.EvalSymlinks`, and the system calls the file tools make. */
module Disk {
  import opened Strings
  import opened Paths

  datatype Node = File(content: string) | Directory | Link(target: string)

  /** Every entry of the disk under its absolute path. */
  type Tree = map<Path, Node>

  datatype WalkError = NotExist | NotDirectory | TooManyLinks
  datatype Walked = Reached(path: Path) | Lost(error: WalkError)

  /** `filepath.EvalSymlinks` gives up after this many links, the kernel after `KERNEL_LINKS`. */
  const EVAL_LINKS: nat := 255
  const KERNEL_LINKS: nat := 40

  function Parent(p: Path): Path
  {
    if p == [] then [] else p[..|p| - 1]
  }

  predicate IsEntryName(c: string)
  {
    IsName(c) && '\0' !in c
  }

  /** Entries hang below directories, have proper names, and links point somewhere. */
  ghost predicate WellFormed(t: Tree)
  {
    && [] in t && t[[]].Directory?
    && (forall p {:trigger IsAttached(t, p)} :: p in t ==> IsAttached(t, p))
  }

  ghost predicate IsAttached(t: Tree, p: Path)
    requires p in t
  {
    && (p != [] ==> IsEntryName(p[|p| - 1]) && Parent(p) in t && t[Parent(p)].Directory?)
    && (t[p].Link? ==> t[p].target != "" && '\0' !in t[p].target)
  }

  predicate IsDirectory(t: Tree, p: Path)
  {
    p in t && t[p].Directory?
  }

  /** An entry that is not a link: in a well-formed tree its path crosses no link at all. */
  predicate IsReal(t: Tree, p: Path)
  {
    p in t && !t[p].Link?
  }

  /** Walks the unresolved components `rest` from the resolved directory `done`.
      With `create`, as for `O_CREAT`, the very last component may be missing. */
  function Walk(t: Tree, done: Path, rest: seq<string>, links: nat, create: bool): (w: Walked)
    decreases links, |rest|
  {
    if rest == [] then Reached(done)
    else
      var c, more := rest[0], rest[1..];
      if c == "" || c == "." then Walk(t, done, more, links, create)
      else if c == ".." then Walk(t, Parent(done), more, links, create)
      else
        var here := done + [c];
        if here !in t then
          if create && more == [] then Reached(here) else Lost(NotExist)
        else match t[here]
          case File(_) => if more == [] then Reached(here) else Lost(NotDirectory)
          case Directory => Walk(t, here, more, links, create)
          case Link(target) =>
            if links == 0 then Lost(TooManyLinks)
            else Walk(t, if IsAbs(target) then [] else done, Split(target, "/") + more, links - 1, create)
  }

  /** `filepath.EvalSymlinks` of an absolute path. */
  function EvalSymlinks(t: Tree, path: string): Walked
  {
    Walk(t, [], Split(path, "/"), EVAL_LINKS, false)
  }

  /** Where `os.Stat` ends up. */
  function Stat(t: Tree, p: Path): Walked
  {
    Walk(t, [], p, KERNEL_LINKS, false)
  }

  /** Where `os.OpenFile` with `O_CREATE` ends up; the entry may not exist yet. */
  function OpenTarget(t: Tree, p: Path): Walked
  {
    Walk(t, [], p, KERNEL_LINKS, true)
  }

  // ----- edits of the tree

  /** What one successful system call does to the tree. */
  datatype Edit = Keep | Put(at: Path, node: Node) | Drop(at: Path) | Rename(src: Path, dst: Path)

  /** The path that the entry at `p` is found under after `src` has become `dst`. */
  function Rebase(p: Path, src: Path, dst: Path): Path
    requires src <= p
  {
    dst + p[|src|..]
  }

  function Apply(t: Tree, e: Edit): Tree
  {
    match e
    case Keep => t
    case Put(at, node) => t[at := node]
    case Drop(at) => t - {at}
    case Rename(src, dst) =>
      var kept := set p | p in t && !(src <= p) && p != dst;
      var moved := set p | p in t && src <= p :: Rebase(p, src, dst);
      assert forall p :: p in t && src <= p ==> Rebase(Rebase(p, src, dst), dst, src) == p;
      map p | p in kept + moved :: if p in moved then t[Rebase(p, dst, src)] else t[p]
  }

  predicate HasChild(t: Tree, p: Path)
  {
    exists q | q in t :: q != [] && Parent(q) == p
  }

  /** The edits a file system can carry out without losing its shape. */
  ghost predicate CanApply(t: Tree, e: Edit)
  {
    match e
    case Keep => true
    case Put(at, node) =>
      && at != [] && IsEntryName(at[|at| - 1]) && IsDirectory(t, Parent(at)) && !node.Link?
      && (at in t ==> !t[at].Directory?)
    case Drop(at) => at in t && at != [] && !HasChild(t, at)
    case Rename(src, dst) =>
      && src in t && src != [] && !(src <= dst)
      && dst != [] && IsEntryName(dst[|dst| - 1]) && IsDirectory(t, Parent(dst))
      && (dst in t ==> !t[dst].Directory?)
  }

  // ----- facts about walks

  lemma {:induction false} AncestorsAreDirectories(t: Tree, p: Path, k: nat)
    requires WellFormed(t) && p in t && k < |p|
    ensures IsDirectory(t, p[..k])
    decreases |p|
  {
    assert IsAttached(t, p);
    if k < |p| - 1 {
      AncestorsAreDirectories(t, Parent(p), k);
      assert Parent(p)[..k] == p[..k];
    }
  }

  lemma {:induction false} PathsAreNames(t: Tree, p: Path)
    requires WellFormed(t) && p in t
    ensures forall i :: 0 <= i < |p| ==> IsEntryName(p[i])
    decreases |p|
  {
    assert IsAttached(t, p);
    if p != [] {
      PathsAreNames(t, Parent(p));
    }
  }

  /** The components of a link's target are file names or dots. */
  lemma {:induction false} TargetParts(target: string)
    requires '\0' !in target
    ensures FreeOf(Split(target, "/"), '/') && FreeOf(Split(target, "/"), '\0')
    decreases |target|
  {
    SplitIsFree(target, '/');
    var i := Index(target, "/");
    if i >= 0 {
      TargetParts(target[i + 1..]);
    }
  }

  /** Wherever a walk can end: a real entry or, with `create`, a free name in a real directory. */
  ghost predicate IsLanding(t: Tree, p: Path, create: bool)
  {
    || IsReal(t, p)
    || (create && p !in t && p != [] && IsEntryName(p[|p| - 1]) && IsDirectory(t, Parent(p)))
  }

  ghost predicate AreSteps(rest: seq<string>)
  {
    FreeOf(rest, '/') && FreeOf(rest, '\0')
  }

  lemma {:induction false} WalkArrives(t: Tree, done: Path, rest: seq<string>, links: nat, create: bool)
    requires WellFormed(t) && IsDirectory(t, done) && AreSteps(rest)
    ensures var w := Walk(t, done, rest, links, create);
      w.Reached? ==> IsLanding(t, w.path, create)
    decreases links, |rest|
  {
    if rest != [] {
      var c, more := rest[0], rest[1..];
      assert AreSteps(more) && '/' !in c && '\0' !in c;
      assert IsAttached(t, done);
      if c == "" || c == "." {
        WalkArrives(t, done, more, links, create);
      } else if c == ".." {
        WalkArrives(t, Parent(done), more, links, create);
      } else {
        var here := done + [c];
        assert Parent(here) == done;
        if here in t && t[here].Directory? {
          WalkArrives(t, here, more, links, create);
        } else if here in t && t[here].Link? && links > 0 {
          assert IsAttached(t, here);
          TargetParts(t[here].target);
          WalkArrives(t, if IsAbs(t[here].target) then [] else done, Split(t[here].target, "/") + more, links - 1, create);
        }
      }
    }
  }

  /** Walking along directories that are already real costs nothing. */
  lemma {:induction false} WalkAlong(t: Tree, done: Path, mid: Path, rest: seq<string>, links: nat, create: bool)
    requires WellFormed(t) && IsDirectory(t, done + mid)
    ensures Walk(t, done, mid + rest, links, create) == Walk(t, done + mid, rest, links, create)
    decreases |mid|
  {
    if mid == [] {
      assert mid + rest == rest && done + mid == done;
    } else {
      var c := mid[0];
      var here := done + [c];
      assert here + mid[1..] == done + mid;
      assert mid + rest == [c] + (mid[1..] + rest);
      assert IsName(c) by {
        PathsAreNames(t, done + mid);
        assert (done + mid)[|done|] == c;
      }
      assert IsDirectory(t, here) by {
        if mid[1..] == [] {
          assert here == done + mid;
        } else {
          AncestorsAreDirectories(t, done + mid, |here|);
          assert (done + mid)[..|here|] == here;
        }
      }
      WalkAlong(t, here, mid[1..], rest, links, create);
    }
  }

  /** The walk of a real path is that path, however many links are allowed. */
  lemma {:induction false} WalkOfReal(t: Tree, p: Path, links: nat, create: bool)
    requires WellFormed(t) && IsReal(t, p)
    ensures Walk(t, [], p, links, create) == Reached(p)
  {
    if p != [] {
      var d, c := Parent(p), p[|p| - 1];
      assert p == d + [c] && [] + d == d;
      PathsAreNames(t, p);
      assert IsAttached(t, p);
      WalkAlong(t, [], d, [c], links, create);
    }
  }

  /** The walk of an absolute path string starts at the root with its components. */
  lemma {:induction false} EvalOfAbsPath(t: Tree, p: Path)
    requires AllNames(p)
    ensures EvalSymlinks(t, AbsPath(p)) == Walk(t, [], p, EVAL_LINKS, false)
  {
    SplitOfAbsPath(p);
    if p == [] {
      assert Walk(t, [], [""] + [""], EVAL_LINKS, false) == Walk(t, [], [""], EVAL_LINKS, false);
    }
  }

  /** A walk without links ends where its components lead. */
  lemma {:induction false} WalkIsLead(t: Tree, done: Path, rest: seq<string>, create: bool)
    ensures var w := Walk(t, done, rest, 0, create); w.Reached? ==> w.path == Lead(done, rest)
    decreases |rest|
  {
    if rest != [] {
      var c, more := rest[0], rest[1..];
      if c == "" || c == "." {
        WalkIsLead(t, done, more, create);
      } else if c == ".." {
        WalkIsLead(t, Parent(done), more, create);
      } else if done + [c] in t && t[done + [c]].Directory? {
        WalkIsLead(t, done + [c], more, create);
      }
    }
  }

  /** A walk breaks off as missing below a directory that lacks the next name, and as no
      directory at a file that is not the last component. */
  lemma {:induction false} WalkBreaksOff(t: Tree, p: Path, rest: seq<string>, links: nat, create: bool)
    requires WellFormed(t) && rest != []
    ensures IsDirectory(t, p) && IsName(rest[0]) && p + [rest[0]] !in t && (|rest| > 1 || !create) ==>
      Walk(t, [], p + rest, links, create) == Lost(NotExist)
    ensures p in t && t[p].File? ==> Walk(t, [], p + rest, links, create) == Lost(NotDirectory)
  {
    assert [] + p == p;
    if IsDirectory(t, p) {
      WalkAlong(t, [], p, rest, links, create);
    } else if p in t && t[p].File? {
      var d, c := Parent(p), p[|p| - 1];
      assert p + rest == d + ([c] + rest) && ([c] + rest)[1..] == rest && [] + d == d && p == d + [c];
      PathsAreNames(t, p);
      assert IsAttached(t, p);
      WalkAlong(t, [], d, [c] + rest, links, create);
    }
  }

  /** A link stands for its target: seen from the root if that is absolute, and otherwise from
      where the link is. */
  lemma {:induction false} LinkStandsForTarget(t: Tree, done: Path, link: string, rest: seq<string>, links: nat, create: bool)
    requires IsName(link) && done + [link] in t && t[done + [link]].Link?
    ensures var target := t[done + [link]].target;
      Walk(t, done, [link] + rest, links + 1, create)
        == if "/" <= target then Walk(t, [], Split(target, "/") + rest, links, create)
           else Walk(t, done, Split(target, "/") + rest, links, create)
    ensures Walk(t, done, [link] + rest, 0, create) == Lost(TooManyLinks)
  {
    assert ([link] + rest)[1..] == rest;
  }

  /** A larger link allowance only helps walks that ran out of links. */
  lemma {:induction false} MoreLinks(t: Tree, done: Path, rest: seq<string>, few: nat, many: nat, create: bool)
    requires few <= many
    ensures var w := Walk(t, done, rest, few, create);
      w != Lost(TooManyLinks) ==> Walk(t, done, rest, many, create) == w
    decreases few, |rest|
  {
    if rest != [] {
      var c, more := rest[0], rest[1..];
      if c == "" || c == "." {
        MoreLinks(t, done, more, few, many, create);
      } else if c == ".." {
        MoreLinks(t, Parent(done), more, few, many, create);
      } else {
        var here := done + [c];
        if here in t && t[here].Directory? {
          MoreLinks(t, here, more, few, many, create);
        } else if here in t && t[here].Link? && few > 0 {
          var target := t[here].target;
          MoreLinks(t, if IsAbs(target) then [] else done, Split(target, "/") + more, few - 1, many - 1, create);
        }
      }
    }
  }

  /** Creating and not creating agree, except that creating may arrive at a name
      where not creating finds nothing. */
  lemma {:induction false} CreateAgrees(t: Tree, done: Path, rest: seq<string>, links: nat)
    ensures var w, v := Walk(t, done, rest, links, true), Walk(t, done, rest, links, false);
      w.Reached? ==> v == w || (v == Lost(NotExist) && w.path !in t)
    decreases links, |rest|
  {
    if rest != [] {
      var c, more := rest[0], rest[1..];
      if c == "" || c == "." {
        CreateAgrees(t, done, more, links);
      } else if c == ".." {
        CreateAgrees(t, Parent(done), more, links);
      } else {
        var here := done + [c];
        if here in t && t[here].Directory? {
          CreateAgrees(t, here, more, links);
        } else if here in t && t[here].Link? && links > 0 {
          var target := t[here].target;
          CreateAgrees(t, if IsAbs(target) then [] else done, Split(target, "/") + more, links - 1);
        }
      }
    }
  }

  // ----- facts about edits

  lemma {:induction false} ApplyKeepsShape(t: Tree, e: Edit)
    requires WellFormed(t) && CanApply(t, e)
    ensures WellFormed(Apply(t, e))
  {
    match e
    case Keep =>
    case Put(at, node) => PutKeepsShape(t, at, node);
    case Drop(at) => DropKeepsShape(t, at);
    case Rename(src, dst) => RenameKeepsShape(t, src, dst);
  }

  lemma {:induction false} PutKeepsShape(t: Tree, at: Path, node: Node)
    requires WellFormed(t) && CanApply(t, Put(at, node))
    ensures WellFormed(t[at := node])
  {
    var u := t[at := node];
    forall p | p in u
      ensures IsAttached(u, p)
    {
      assert p in t ==> IsAttached(t, p);
      assert p != [] ==> |Parent(p)| < |p|;
    }
  }

  lemma {:induction false} DropKeepsShape(t: Tree, at: Path)
    requires WellFormed(t) && CanApply(t, Drop(at))
    ensures WellFormed(t - {at})
  {
    forall p | p in t - {at}
      ensures IsAttached(t - {at}, p)
    {
      assert IsAttached(t, p);
    }
  }

  /** After a rename the subtree of `src` stands at `dst`, and everything else is as it was. */
  lemma {:induction false} RenameEntries(t: Tree, src: Path, dst: Path, p: Path)
    requires WellFormed(t) && CanApply(t, Rename(src, dst))
    ensures var u := Apply(t, Rename(src, dst));
      if dst <= p then
        var q := Rebase(p, dst, src);
        (p in u <==> q in t) && (p in u ==> u[p] == t[q])
      else
        (p in u <==> p in t && !(src <= p)) && (p in u ==> u[p] == t[p])
  {
    if dst <= p {
      assert Rebase(Rebase(p, dst, src), src, dst) == p;
      if p in t && p != dst {
        BelowIsDirectory(t, p, dst);
      }
    }
    forall q | q in t && src <= q
      ensures dst <= Rebase(q, src, dst) && Rebase(Rebase(q, src, dst), dst, src) == q
    {
    }
  }

  /** Only directories have entries below them. */
  lemma {:induction false} BelowIsDirectory(t: Tree, p: Path, at: Path)
    requires WellFormed(t) && p in t && at < p
    ensures IsDirectory(t, at)
  {
    AncestorsAreDirectories(t, p, |at|);
    assert p[..|at|] == at;
  }

  lemma {:induction false} RenameKeepsShape(t: Tree, src: Path, dst: Path)
    requires WellFormed(t) && CanApply(t, Rename(src, dst))
    ensures WellFormed(Apply(t, Rename(src, dst)))
  {
    var u := Apply(t, Rename(src, dst));
    RenameEntries(t, src, dst, []);
    forall p | p in u
      ensures IsAttached(u, p)
    {
      RenameEntries(t, src, dst, p);
      RenameEntries(t, src, dst, Parent(p));
      if dst <= p {
        MovedIsAttached(t, src, dst, p);
      } else {
        assert IsAttached(t, p);
        assert !(dst <= Parent(p));
        assert src <= Parent(p) ==> src <= p;
      }
    }
  }

  lemma {:induction false} MovedIsAttached(t: Tree, src: Path, dst: Path, p: Path)
    requires WellFormed(t) && CanApply(t, Rename(src, dst))
    requires dst <= p && p in Apply(t, Rename(src, dst))
    ensures IsAttached(Apply(t, Rename(src, dst)), p)
  {
    RenameEntries(t, src, dst, p);
    RenameEntries(t, src, dst, Parent(p));
    var q := Rebase(p, dst, src);
    assert IsAttached(t, q);
    if p == dst {
      assert q == src;
      assert src <= Parent(dst) ==> src <= dst;
    } else {
      assert q[|q| - 1] == p[|p| - 1];
      assert Rebase(Parent(p), dst, src) == Parent(q);
    }
  }

  /** Nothing is, or could be created, below an entry that is not a directory. */
  lemma {:induction false} NothingBelowFile(t: Tree, at: Path, p: Path)
    requires WellFormed(t) && at in t && !t[at].Directory?
    requires p in t || (p != [] && IsDirectory(t, Parent(p)))
    ensures !(at < p) && !HasChild(t, at)
  {
    if at < p {
      if p in t {
        BelowIsDirectory(t, p, at);
      } else if at != Parent(p) {
        BelowIsDirectory(t, Parent(p), at);
      }
    }
    forall q | q in t && q != [] ensures Parent(q) != at {
      assert IsAttached(t, q);
    }
  }
}
