/** What the file tools achieve, seen through path resolution: what was written can be
    reached by the same path, and what was removed no longer can. Also the two places
    where a promise fails, with disks that show it. */
module FileEffects {
  import opened Results
  import opened Strings
  import opened Paths
  import opened Disk
  import opened Workspace
  import opened FileTools

  // ----- writing

  /** A new entry, or new file contents, do not disturb a walk that got through before. */
  lemma {:induction false} WalkAfterPut(t: Tree, at: Path, node: Node, done: Path, rest: seq<string>, links: nat)
    requires !node.Link? && (at in t ==> t[at].File? && node.File?)
    ensures var w := Walk(t, done, rest, links, false);
      w.Reached? ==> Walk(t[at := node], done, rest, links, false) == w
    decreases links, |rest|
  {
    if rest != [] {
      var c, more := rest[0], rest[1..];
      if c == "" || c == "." {
        WalkAfterPut(t, at, node, done, more, links);
      } else if c == ".." {
        WalkAfterPut(t, at, node, Parent(done), more, links);
      } else {
        var here := done + [c];
        if here in t && t[here].Directory? {
          WalkAfterPut(t, at, node, here, more, links);
        } else if here in t && t[here].Link? && links > 0 {
          var target := t[here].target;
          WalkAfterPut(t, at, node, if IsAbs(target) then [] else done, Split(target, "/") + more, links - 1);
        }
      }
    }
  }

  /** The contents a call is meant to leave behind. */
  function Intended(t: Tree, root: Path, call: Call, at: Path): Node
  {
    match call
    case Mkdir(_) => Directory
    case WriteFile(_, content, append, _) =>
      if append && at in t && t[at].File? then File(t[at].content + content) else File(content)
    case Copy(source, _, _) =>
      var src := ResolvePath(t, root, source);
      if src.Success? && src.value in t then t[src.value] else File("")
    case _ => if at in t then t[at] else File("")
  }

  /** After a successful `touch`, `mkdir`, `write_file` or `cp` that did not go through a
      link, its path resolves, to the intended contents, and nothing else has changed. */
  lemma {:induction false} WrittenCanBeRead(t: Tree, root: Path, limits: Limits, call: Call)
    requires IsServable(t, root) && Plan(t, root, limits, call).Success?
    requires call.Touch? || call.Mkdir? || call.WriteFile? || call.Copy?
    requires OpenedThroughLink(t, root, call).None?
    ensures var u := After(t, Plan(t, root, limits, call));
      var p := ResolveTouchPath(t, root, Destination(call)).value;
      && ResolvePath(u, root, Destination(call)) == Success(p)
      && u == t[p := Intended(t, root, call, p)]
  {
    var p := ResolveTouchPath(t, root, Destination(call)).value;
    ResolvedTouchIsTouchable(t, root, Destination(call));
    PlanPutsIntended(t, root, limits, call, p);
    ResolvesAfterPut(t, root, Destination(call), p, Intended(t, root, call, p));
  }

  /** Reading after writing: `readFile` gives back what `touch`, `write_file` or `cp` has left
      at the path, up to the limit, and says whether that is all. */
  lemma {:induction false} WrittenIsRead(t: Tree, root: Path, limits: Limits, call: Call, limit: int)
    requires IsServable(t, root) && Plan(t, root, limits, call).Success?
    requires call.Touch? || call.WriteFile? || call.Copy?
    requires OpenedThroughLink(t, root, call).None?
    ensures var p := ResolveTouchPath(t, root, Destination(call)).value;
      && Intended(t, root, call, p).File?
      && ReadText(After(t, Plan(t, root, limits, call)), root, limits, Destination(call), limit)
        == Success(Excerpt(Intended(t, root, call, p).content, ReadLimit(limits, limit)))
  {
    var p := ResolveTouchPath(t, root, Destination(call)).value;
    WrittenCanBeRead(t, root, limits, call);
    IntendedIsFile(t, root, limits, call, p);
    hide Plan, ResolveTouchPath, ResolvePath;
    assert p in After(t, Plan(t, root, limits, call));
  }

  lemma {:induction false} IntendedIsFile(t: Tree, root: Path, limits: Limits, call: Call, p: Path)
    requires IsServable(t, root) && Plan(t, root, limits, call).Success?
    requires call.Touch? || call.WriteFile? || call.Copy?
    requires OpenedThroughLink(t, root, call).None?
    requires ResolveTouchPath(t, root, Destination(call)) == Success(p)
    ensures Intended(t, root, call, p).File?
  {
    ResolvedTouchIsTouchable(t, root, Destination(call));
    OpenOfTouchable(t, root, p);
  }

  lemma {:induction false} ResolvesAfterPut(t: Tree, root: Path, relative: string, p: Path, node: Node)
    requires IsServable(t, root) && ResolveTouchPath(t, root, relative) == Success(p) && IsTouchable(t, root, p)
    requires !node.Link? && (p in t ==> t[p].File? && node.File?)
    ensures ResolvePath(t[p := node], root, relative) == Success(p)
  {
    if ResolvePath(t, root, relative).Success? {
      ResolvedIsReal(t, root, relative);
      ResolvesAfterRewrite(t, root, relative, p, node);
    } else {
      NewTouchIsNewName(t, root, relative);
      ResolvesAfterCreate(t, root, relative, p, node);
    }
  }

  lemma {:induction false} PlanPutsIntended(t: Tree, root: Path, limits: Limits, call: Call, p: Path)
    requires IsServable(t, root) && Plan(t, root, limits, call).Success?
    requires call.Touch? || call.Mkdir? || call.WriteFile? || call.Copy?
    requires OpenedThroughLink(t, root, call).None?
    requires ResolveTouchPath(t, root, Destination(call)) == Success(p) && IsTouchable(t, root, p)
    ensures var node := Intended(t, root, call, p);
      && After(t, Plan(t, root, limits, call)) == t[p := node]
      && !node.Link? && (p in t ==> t[p].File? && node.File?)
  {
    hide ResolvePath, ResolveTouchPath, Walk, WellFormed;
    OpenOfTouchable(t, root, p);
  }

  lemma {:induction false} ResolvesAfterRewrite(t: Tree, root: Path, relative: string, p: Path, node: Node)
    requires IsServable(t, root) && ResolvePath(t, root, relative) == Success(p)
    requires p in t && t[p].File? && node.File?
    ensures ResolvePath(t[p := node], root, relative) == Success(p)
  {
    FileHasParent(t, p);
    PutKeepsShape(t, p, node);
    ResolvePathAccepts(t, root, relative, p);
    WalkAfterPut(t, p, node, [], root + Parts(relative), EVAL_LINKS);
    ResolvePathAccepts(t[p := node], root, relative, p);
  }

  lemma {:induction false} ResolvesAfterCreate(t: Tree, root: Path, relative: string, p: Path, node: Node)
    requires IsServable(t, root) && ResolvePath(t, root, relative) == Failure(NOT_FOUND)
    requires ResolveTouchPath(t, root, relative) == Success(p) && IsTouchable(t, root, p)
    requires p !in t && !node.Link?
    ensures ResolvePath(t[p := node], root, relative) == Success(p)
  {
    hide ResolvePath, ResolveTouchPath, Parts, RelPath, WellFormed;
    TouchHasParts(t, root, relative);
    var parts := Parts(relative);
    var front, last := parts[..|parts| - 1], parts[|parts| - 1];
    assert parts == front + [last];
    assert IsAcceptable(root, relative) by { ResolvePathAccepts(t, root, relative, []); }
    var parent := TouchPlace(t, root, relative, front, last, p);
    ReachesCreated(t, root, front, last, parent, node);
    OpenOfTouchable(t, root, p);
    CreatedResolves(t, root, relative, front, last, p, node);
  }

  lemma {:induction false} CreatedResolves(t: Tree, root: Path, relative: string, front: Path, last: string, p: Path, node: Node)
    requires IsServable(t, root) && Within(root, p) && p != root && p !in t && !node.Link?
    requires CanApply(t, Put(p, node))
    requires IsAcceptable(root, relative) && Parts(relative) == front + [last]
    requires Walk(t[p := node], [], root + front + [last], EVAL_LINKS, false) == Reached(p)
    ensures ResolvePath(t[p := node], root, relative) == Success(p)
  {
    PutKeepsShape(t, p, node);
    assert root + front + [last] == root + Parts(relative);
    ResolvePathAccepts(t[p := node], root, relative, p);
  }

  /** A walk that led to a directory leads on to an entry that is put there. */
  lemma {:induction false} ReachesCreated(t: Tree, root: Path, front: Path, last: string, parent: Path, node: Node)
    requires Walk(t, [], root + front, EVAL_LINKS, false) == Reached(parent) && IsDirectory(t, parent)
    requires IsName(last) && parent + [last] !in t && !node.Link?
    ensures Walk(t[parent + [last] := node], [], root + front + [last], EVAL_LINKS, false) == Reached(parent + [last])
  {
    var u := t[parent + [last] := node];
    WalkAfterPut(t, parent + [last], node, [], root + front, EVAL_LINKS);
    WalkLastStep(u, [], root + front, last, EVAL_LINKS);
  }

  /** Where a new entry goes: the directory that the front of its path leads to. */
  lemma {:induction false} TouchPlace(t: Tree, root: Path, relative: string, front: Path, last: string, p: Path)
    returns (parent: Path)
    requires IsServable(t, root) && ResolvePath(t, root, relative) == Failure(NOT_FOUND)
    requires ResolveTouchPath(t, root, relative) == Success(p) && Parts(relative) == front + [last]
    ensures IsName(last) && p == parent + [last] && IsDirectory(t, parent)
    ensures Walk(t, [], root + front, EVAL_LINKS, false) == Reached(parent)
  {
    parent := TouchParent(t, root, relative, front, last, p);
    ParentOfNew(t, root, front, parent);
  }

  lemma {:induction false} TouchParent(t: Tree, root: Path, relative: string, front: Path, last: string, p: Path)
    returns (parent: Path)
    requires IsServable(t, root) && ResolvePath(t, root, relative) == Failure(NOT_FOUND)
    requires ResolveTouchPath(t, root, relative) == Success(p) && Parts(relative) == front + [last]
    ensures AllNames(front) && IsName(last) && ResolvePath(t, root, RelPath(front)) == Success(parent)
    ensures p == parent + [last] && IsDirectory(t, parent)
  {
    TouchOfMissing(t, root, relative, front, last);
    parent := ResolvePath(t, root, RelPath(front)).value;
  }

  lemma {:induction false} ParentOfNew(t: Tree, root: Path, front: Path, parent: Path)
    requires IsServable(t, root) && AllNames(front) && ResolvePath(t, root, RelPath(front)) == Success(parent)
    ensures Walk(t, [], root + front, EVAL_LINKS, false) == Reached(parent) && Within(root, parent)
  {
    ResolvePathAccepts(t, root, RelPath(front), parent);
    PartsOfRelPath(front);
  }

  // ----- writing through a link

  /** A walk that found nothing where one that may create arrived finds what is put there. */
  lemma {:induction false} LandsOnCreated(t: Tree, q: Path, node: Node, done: Path, rest: seq<string>, many: nat, few: nat)
    requires Walk(t, done, rest, many, true) == Reached(q) && q !in t && !node.Link?
    requires Walk(t, done, rest, few, false) == Lost(NotExist)
    ensures Walk(t[q := node], done, rest, few, false) == Reached(q)
    decreases few, |rest|
  {
    var c, more := rest[0], rest[1..];
    if c == "" || c == "." {
      LandsOnCreated(t, q, node, done, more, many, few);
    } else if c == ".." {
      LandsOnCreated(t, q, node, Parent(done), more, many, few);
    } else {
      var here := done + [c];
      if here in t && t[here].Directory? {
        LandsOnCreated(t, q, node, here, more, many, few);
      } else if here in t && t[here].Link? {
        var target := t[here].target;
        var next := if IsAbs(target) then [] else done;
        LandsOnCreated(t, q, node, next, Split(target, "/") + more, many - 1, few - 1);
      }
    }
  }

  /** The same for a path that leads to the link through a directory. */
  lemma {:induction false} LandsBehind(t: Tree, q: Path, node: Node, done: Path, front: seq<string>, last: string, parent: Path,
      many: nat, few: nat)
    requires Walk(t, done, front, few, false) == Reached(parent) && IsDirectory(t, parent) && IsName(last)
    requires Walk(t, parent, [last], many, true) == Reached(q) && q !in t && !node.Link?
    requires Walk(t, done, front + [last], few, false) == Lost(NotExist)
    ensures Walk(t[q := node], done, front + [last], few, false) == Reached(q)
    decreases few, |front|
  {
    if front == [] {
      assert front + [last] == [last];
      LandsOnCreated(t, q, node, done, [last], many, few);
    } else {
      var c, more := front[0], front[1..];
      assert (front + [last])[1..] == more + [last];
      if c == "" || c == "." {
        LandsBehind(t, q, node, done, more, last, parent, many, few);
      } else if c == ".." {
        LandsBehind(t, q, node, Parent(done), more, last, parent, many, few);
      } else if t[done + [c]].Directory? {
        LandsBehind(t, q, node, done + [c], more, last, parent, many, few);
      } else if t[done + [c]].Link? {
        var target := t[done + [c]].target;
        var next := if IsAbs(target) then [] else done;
        assert Split(target, "/") + more + [last] == Split(target, "/") + (more + [last]);
        LandsBehind(t, q, node, next, Split(target, "/") + more, last, parent, many, few - 1);
      }
    }
  }

  /** After a successful `touch` or `cp` through a dangling link, there is one new file, where
      the link leads to; and the path resolves, to that file, exactly if it is in the workspace. */
  lemma {:induction false} WrittenThroughLink(t: Tree, root: Path, limits: Limits, call: Call)
    requires IsServable(t, root) && Plan(t, root, limits, call).Success?
    requires OpenedThroughLink(t, root, call).Some?
    ensures var u, q := After(t, Plan(t, root, limits, call)), OpenedThroughLink(t, root, call).value;
      && q !in t && u == t[q := Intended(t, root, call, q)]
      && (ResolvePath(u, root, Destination(call)) == Success(q) <==> Within(root, q))
      && (ResolvePath(u, root, Destination(call)).Success? <==> Within(root, q))
  {
    var p, q := ResolveTouchPath(t, root, Destination(call)).value, OpenedThroughLink(t, root, call).value;
    var node := Intended(t, root, call, q);
    ResolvedTouchIsTouchable(t, root, Destination(call));
    OpenOfTouchable(t, root, p);
    PlanPutsThroughLink(t, root, limits, call, p, q);
    LinkWasMissing(t, root, Destination(call), p);
    WalksThroughLink(t, root, Destination(call), p, q, node);
    CallIsConfined(t, root, limits, call);
    var u := t[q := node];
    forall r ensures ResolvePath(u, root, Destination(call)) == Success(r) <==> r == q && Within(root, q) {
      ResolvePathAccepts(u, root, Destination(call), r);
    }
  }

  lemma {:induction false} PlanPutsThroughLink(t: Tree, root: Path, limits: Limits, call: Call, p: Path, q: Path)
    requires IsServable(t, root) && Plan(t, root, limits, call).Success?
    requires OpenedThroughLink(t, root, call) == Some(q) && q !in t
    requires ResolveTouchPath(t, root, Destination(call)) == Success(p)
    ensures Plan(t, root, limits, call) == Success(Put(q, Intended(t, root, call, q))) && Intended(t, root, call, q).File?
  {
    hide ResolvePath, ResolveTouchPath, Walk, WellFormed;
  }

  lemma {:induction false} LinkWasMissing(t: Tree, root: Path, relative: string, p: Path)
    requires IsServable(t, root) && ResolveTouchPath(t, root, relative) == Success(p) && p in t && t[p].Link?
    ensures ResolvePath(t, root, relative) == Failure(NOT_FOUND) && IsAcceptable(root, relative)
    ensures Walk(t, [], root + Parts(relative), EVAL_LINKS, false) == Lost(NotExist)
  {
    ResolvedIsReal(t, root, relative);
    ResolvePathAccepts(t, root, relative, p);
  }

  lemma {:induction false} WalksThroughLink(t: Tree, root: Path, relative: string, p: Path, q: Path, node: Node)
    requires IsServable(t, root) && ResolveTouchPath(t, root, relative) == Success(p)
    requires ResolvePath(t, root, relative) == Failure(NOT_FOUND)
    requires Walk(t, [], root + Parts(relative), EVAL_LINKS, false) == Lost(NotExist)
    requires OpenTarget(t, p) == Reached(q) && q !in t && !node.Link?
    ensures Walk(t[q := node], [], root + Parts(relative), EVAL_LINKS, false) == Reached(q)
  {
    hide ResolvePath, ResolveTouchPath, Parts;
    TouchHasParts(t, root, relative);
    var parts := Parts(relative);
    var front, last := parts[..|parts| - 1], parts[|parts| - 1];
    assert parts == front + [last] && root + parts == root + front + [last];
    var parent := TouchPlace(t, root, relative, front, last, p);
    assert [] + parent == parent;
    WalkAlong(t, [], parent, [last], KERNEL_LINKS, true);
    LandsBehind(t, q, node, [], root + front, last, parent, KERNEL_LINKS, EVAL_LINKS);
  }

  // ----- removing

  /** A walk that ended at a file or an empty directory finds nothing once that is gone. */
  lemma {:induction false} WalkAfterDrop(t: Tree, at: Path, done: Path, rest: seq<string>, links: nat)
    requires WellFormed(t) && at in t && at != [] && !HasChild(t, at)
    requires IsDirectory(t, done) && done != at
    ensures Walk(t, done, rest, links, false) == Reached(at) ==>
      Walk(t - {at}, done, rest, links, false) == Lost(NotExist)
    decreases links, |rest|
  {
    if rest != [] {
      var c, more := rest[0], rest[1..];
      assert IsAttached(t, done);
      if c == "" || c == "." {
        WalkAfterDrop(t, at, done, more, links);
      } else if c == ".." {
        WalkAfterDrop(t, at, Parent(done), more, links);
      } else {
        var here := done + [c];
        if here in t && here != at {
          if t[here].Directory? {
            WalkAfterDrop(t, at, here, more, links);
          } else if t[here].Link? && links > 0 {
            var target := t[here].target;
            WalkAfterDrop(t, at, if IsAbs(target) then [] else done, Split(target, "/") + more, links - 1);
          }
        }
      }
    }
  }

  /** After a successful `rm` or `rmdir` the path it was given no longer resolves. What is
      gone is the file or directory the path led to, and only that: a link on the way stays,
      although the tool's description speaks of removing links. */
  lemma {:induction false} RemovedIsGone(t: Tree, root: Path, limits: Limits, call: Call)
    requires IsServable(t, root) && (call.Remove? || call.RemoveDirectory?)
    requires Plan(t, root, limits, call).Success?
    ensures var u := After(t, Plan(t, root, limits, call));
      var p := ResolvePath(t, root, call.path).value;
      && p in t && !t[p].Link? && u == t - {p}
      && ResolvePath(u, root, call.path) == Failure(NOT_FOUND)
  {
    var p := ResolvePath(t, root, call.path).value;
    CallIsConfined(t, root, limits, call);
    ResolvedIsReal(t, root, call.path);
    ResolvePathAccepts(t, root, call.path, p);
    if call.Remove? { NothingBelowFile(t, p, root); }
    WalkAfterDrop(t, p, [], root + Parts(call.path), EVAL_LINKS);
    ResolvePathAccepts(t - {p}, root, call.path, p);
  }

  // ----- disks on which two promises fail

  /** A workspace `/ws` holding one link `out` to `/gone`, which does not exist. */
  function DiskWithLink(ws: string, out: string, gone: string): Tree
  {
    map[[] := Directory, [ws] := Directory, [ws, out] := Link("/" + gone)]
  }

  ghost predicate AreDistinctNames(ws: string, out: string, gone: string)
  {
    IsEntryName(ws) && IsEntryName(out) && IsEntryName(gone) && ws != gone
  }

  lemma {:induction false} DiskWithLinkIsServable(ws: string, out: string, gone: string)
    requires AreDistinctNames(ws, out, gone)
    ensures IsServable(DiskWithLink(ws, out, gone), [ws])
  {
    assert Parent([ws]) == [] && Parent([ws, out]) == [ws];
  }

  lemma {:induction false} WalkToLink(ws: string, out: string, gone: string, links: nat, create: bool)
    requires AreDistinctNames(ws, out, gone) && links > 0
    ensures Walk(DiskWithLink(ws, out, gone), [], [ws, out], links, create)
      == if create then Reached([gone]) else Lost(NotExist)
  {
    var t := DiskWithLink(ws, out, gone);
    assert [ws, out][1..] == [out] && [] + [ws] == [ws] && [ws] + [out] == [ws, out];
    SplitOfAbsPath([gone]);
    assert AbsPath([gone]) == "/" + gone;
    assert Split("/" + gone, "/") + [] == [""] + [gone];
    assert Walk(t, [ws], [out], links, create) == Walk(t, [], [""] + [gone], links - 1, create);
    assert ([""] + [gone])[1..] == [gone] && [] + [gone] == [gone];
    assert [gone][0] == gone && [ws][0] == ws && [gone] !in t;
    assert Walk(t, [], [""] + [gone], links - 1, create) == Walk(t, [], [gone], links - 1, create);
    assert Walk(t, [], [ws, out], links, create) == Walk(t, [ws], [out], links, create);
  }

  lemma {:induction false} LinkIsNotFound(ws: string, out: string, gone: string)
    requires AreDistinctNames(ws, out, gone) && !IsBlank(out) && out[0] != '\\'
    ensures ResolvePath(DiskWithLink(ws, out, gone), [ws], out) == Failure(NOT_FOUND) && Parts(out) == [] + [out]
  {
    DiskWithLinkIsServable(ws, out, gone);
    WalkToLink(ws, out, gone, EVAL_LINKS, false);
    assert [ws] + [out] == [ws, out] && RelPath([out]) == out && [] + [out] == [out];
    PartsOfRelPath([out]);
    ResolvePathAccepts(DiskWithLink(ws, out, gone), [ws], out, []);
  }

  lemma {:induction false} RootResolves(t: Tree, root: Path)
    requires IsServable(t, root)
    ensures ResolvePath(t, root, RelPath([])) == Success(root)
  {
    RelBelow(root, []);
    assert root + [] == root && !IsSpace(RelPath([])[0]);
    RelativePathResolvesBack(t, root, root);
  }

  /** A name that is missing in the workspace itself is touched there. */
  lemma {:induction false} TouchInRoot(t: Tree, root: Path, name: string)
    requires IsServable(t, root) && Parts(name) == [] + [name]
    requires ResolvePath(t, root, name) == Failure(NOT_FOUND)
    ensures ResolveTouchPath(t, root, name) == Success(root + [name])
  {
    TouchOfMissing(t, root, name, [], name);
    RootResolves(t, root);
  }

  lemma {:induction false} TouchAtFree(t: Tree, p: Path, q: Path)
    requires OpenTarget(t, p) == Reached(q) && q !in t
    ensures TouchAt(t, p) == Success(Put(q, File("")))
  {
  }

  /** `touch` follows a dangling link out of the workspace and creates its target there:
      for instance with `ws`, `out` and `gone` being "ws", "out" and "new". */
  lemma {:induction false} TouchFollowsDanglingLink(limits: Limits, ws: string, out: string, gone: string)
    requires AreDistinctNames(ws, out, gone) && !IsBlank(out) && out[0] != '\\'
    ensures var t := DiskWithLink(ws, out, gone);
      && IsServable(t, [ws]) && [gone] !in t && !Within([ws], [gone])
      && Plan(t, [ws], limits, Touch(out)) == Success(Put([gone], File("")))
  {
    DiskWithLinkIsServable(ws, out, gone);
    LinkIsNotFound(ws, out, gone);
    TouchInRoot(DiskWithLink(ws, out, gone), [ws], out);
    assert [ws] + [out] == [ws, out];
    WalkToLink(ws, out, gone, KERNEL_LINKS, true);
    TouchAtFree(DiskWithLink(ws, out, gone), [ws, out], [gone]);
  }

  /** An entry whose name is white space, such as " ", can be resolved by one path but not by
      the path that is reported for it. */
  lemma {:induction false} BlankNameDoesNotResolveBack(t: Tree, root: Path, blank: string)
    requires IsServable(t, root) && root != [] && IsReal(t, root + [blank]) && IsBlank(blank)
    ensures ResolvePath(t, root, "./" + blank) == Success(root + [blank])
    ensures ResolvePath(t, root, RelativePath(root, root + [blank])).Failure?
  {
    BlankResolves(t, root, blank);
    RelBelow(root, [blank]);
    assert RelPath([blank]) == blank;
  }

  lemma {:induction false} BlankResolves(t: Tree, root: Path, name: string)
    requires IsServable(t, root) && root != [] && IsReal(t, root + [name])
    ensures ResolvePath(t, root, "./" + name) == Success(root + [name])
  {
    var p, relative := root + [name], "./" + name;
    assert relative[0] == '.' && relative[1] == '/' && !IsSpace('.');
    PathsAreNames(t, p);
    assert p[|root|] == name;
    PartsBehindDot(name);
    NameHasNoNul(t, p);
    WalkOfReal(t, p, EVAL_LINKS, false);
    ResolvePathAccepts(t, root, relative, p);
  }

  lemma {:induction false} NameHasNoNul(t: Tree, p: Path)
    requires WellFormed(t) && p in t && p != []
    ensures IsEntryName(p[|p| - 1])
  {
    FileHasParent(t, p);
  }

  /** Such a disk exists. */
  lemma {:induction false} DiskWithBlank(ws: string, blank: string)
    requires IsEntryName(ws) && IsEntryName(blank) && IsBlank(blank)
    ensures var t: Tree := map[[] := Directory, [ws] := Directory, [ws] + [blank] := File("")];
      IsServable(t, [ws]) && IsReal(t, [ws] + [blank])
  {
    var t: Tree := map[[] := Directory, [ws] := Directory, [ws] + [blank] := File("")];
    assert Parent([ws]) == [] && Parent([ws] + [blank]) == [ws];
  }

  lemma {:induction false} PartsBehindDot(name: string)
    requires IsName(name)
    ensures Parts("./" + name) == [name]
  {
    assert "./" + name == "." + ['/'] + name;
    SplitAtFirst(".", '/', name);
    SplitAtFirst(name, '/', "");
    CleanPartsConcat(false, [], ["."], [name]);
    CleanPartsOfNames(false, [], [name]);
  }
}
