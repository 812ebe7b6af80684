/** What a successful `mv` achieves, seen through path resolution: the source is gone, and the
    destination leads to what was moved unless it led through the source. */
module MoveEffects {
  import opened Results
  import opened Strings
  import opened Paths
  import opened Disk
  import opened Workspace
  import opened FileTools
  import opened FileEffects

  /** The walk looks at an entry at or below `at`. */
  ghost predicate Meets(t: Tree, done: Path, rest: seq<string>, links: nat, at: Path)
    decreases links, |rest|
  {
    rest != [] &&
    var c, more := rest[0], rest[1..];
    if c == "" || c == "." then Meets(t, done, more, links, at)
    else if c == ".." then Meets(t, Parent(done), more, links, at)
    else
      var here := done + [c];
      at <= here ||
      (here in t &&
       match t[here]
       case File(_) => false
       case Directory => Meets(t, here, more, links, at)
       case Link(target) =>
         links > 0 && Meets(t, if IsAbs(target) then [] else done, Split(target, "/") + more, links - 1, at))
  }

  /** On the way to its last component the path crosses the entry `at`. */
  ghost predicate LeadsThrough(t: Tree, root: Path, relative: string, at: Path)
  {
    var parts := Parts(relative);
    parts != [] && Meets(t, [], root + parts[..|parts| - 1], EVAL_LINKS, at)
  }

  // ----- facts about walks

  lemma {:induction false} FrontIsReached(t: Tree, done: Path, front: seq<string>, rest: seq<string>, links: nat)
    requires Walk(t, done, front + rest, links, false).Reached?
    ensures Walk(t, done, front, links, false).Reached?
    decreases links, |front|
  {
    if front != [] {
      var c, more := front[0], front[1..];
      assert (front + rest)[1..] == more + rest;
      if c == "" || c == "." {
        FrontIsReached(t, done, more, rest, links);
      } else if c == ".." {
        FrontIsReached(t, Parent(done), more, rest, links);
      } else if t[done + [c]].Directory? {
        FrontIsReached(t, done + [c], more, rest, links);
      } else if t[done + [c]].Link? {
        var target := t[done + [c]].target;
        var next := if IsAbs(target) then [] else done;
        assert Split(target, "/") + more + rest == Split(target, "/") + (more + rest);
        FrontIsReached(t, next, Split(target, "/") + more, rest, links - 1);
      }
    }
  }

  lemma {:induction false} LostStaysLost(t: Tree, done: Path, front: seq<string>, rest: seq<string>, links: nat)
    requires Walk(t, done, front, links, false) == Lost(NotExist)
    ensures Walk(t, done, front + rest, links, false) == Lost(NotExist)
    decreases links, |front|
  {
    var c, more := front[0], front[1..];
    assert (front + rest)[1..] == more + rest;
    if c == "" || c == "." {
      LostStaysLost(t, done, more, rest, links);
    } else if c == ".." {
      LostStaysLost(t, Parent(done), more, rest, links);
    } else if done + [c] in t && t[done + [c]].Directory? {
      LostStaysLost(t, done + [c], more, rest, links);
    } else if done + [c] in t && t[done + [c]].Link? {
      var target := t[done + [c]].target;
      var next := if IsAbs(target) then [] else done;
      assert Split(target, "/") + more + rest == Split(target, "/") + (more + rest);
      LostStaysLost(t, next, Split(target, "/") + more, rest, links - 1);
    }
  }

  lemma {:induction false} MeetsEarlier(t: Tree, done: Path, front: seq<string>, rest: seq<string>, links: nat, at: Path)
    requires Meets(t, done, front, links, at)
    ensures Meets(t, done, front + rest, links, at)
    decreases links, |front|
  {
    var c, more := front[0], front[1..];
    assert (front + rest)[1..] == more + rest;
    if c == "" || c == "." {
      MeetsEarlier(t, done, more, rest, links, at);
    } else if c == ".." {
      MeetsEarlier(t, Parent(done), more, rest, links, at);
    } else if !(at <= done + [c]) {
      if t[done + [c]].Directory? {
        MeetsEarlier(t, done + [c], more, rest, links, at);
      } else {
        var target := t[done + [c]].target;
        var next := if IsAbs(target) then [] else done;
        assert Split(target, "/") + more + rest == Split(target, "/") + (more + rest);
        MeetsEarlier(t, next, Split(target, "/") + more, rest, links - 1, at);
      }
    }
  }

  lemma {:induction false} LeadingMeets(t: Tree, root: Path, relative: string, at: Path)
    requires LeadsThrough(t, root, relative, at)
    ensures Meets(t, [], root + Parts(relative), EVAL_LINKS, at)
  {
    hide Meets;
    var parts := Parts(relative);
    var front, last := parts[..|parts| - 1], parts[|parts| - 1];
    MeetsEarlier(t, [], root + front, [last], EVAL_LINKS, at);
    assert root + front + [last] == root + parts;
  }

  /** A walk that ends at or below an entry has met it. */
  lemma {:induction false} ArrivingMeets(t: Tree, done: Path, rest: seq<string>, links: nat, at: Path)
    requires Walk(t, done, rest, links, false).Reached? && at <= Walk(t, done, rest, links, false).path && !(at <= done)
    ensures Meets(t, done, rest, links, at)
    decreases links, |rest|
  {
    var c, more := rest[0], rest[1..];
    if c == "" || c == "." {
      ArrivingMeets(t, done, more, links, at);
    } else if c == ".." {
      ArrivingMeets(t, Parent(done), more, links, at);
    } else if !(at <= done + [c]) {
      if t[done + [c]].Directory? {
        ArrivingMeets(t, done + [c], more, links, at);
      } else if t[done + [c]].Link? {
        var target := t[done + [c]].target;
        ArrivingMeets(t, if IsAbs(target) then [] else done, Split(target, "/") + more, links - 1, at);
      }
    }
  }

  /** A walk that meets a file ends there. */
  lemma {:induction false} FileEndsWalk(t: Tree, done: Path, rest: seq<string>, links: nat, at: Path)
    requires WellFormed(t) && at in t && t[at].File? && Meets(t, done, rest, links, at)
    requires Walk(t, done, rest, links, false).Reached? && !(at <= done)
    ensures Walk(t, done, rest, links, false) == Reached(at)
    decreases links, |rest|
  {
    var c, more := rest[0], rest[1..];
    if c == "" || c == "." {
      FileEndsWalk(t, done, more, links, at);
    } else if c == ".." {
      FileEndsWalk(t, Parent(done), more, links, at);
    } else {
      var here := done + [c];
      NothingBelowFile(t, at, here);
      if here != at {
        if t[here].Directory? {
          FileEndsWalk(t, here, more, links, at);
        } else if t[here].Link? {
          var target := t[here].target;
          FileEndsWalk(t, if IsAbs(target) then [] else done, Split(target, "/") + more, links - 1, at);
        }
      }
    }
  }

  // ----- walks after a move

  /** What `os.Rename` is given: the source stands apart from the destination, which is free,
      a file, or a link that cannot be followed. */
  ghost predicate IsMove(t: Tree, src: Path, dst: Path)
  {
    && WellFormed(t) && CanApply(t, Rename(src, dst)) && IsReal(t, src)
    && (dst in t && t[dst].Link? ==> Walk(t, [], dst, EVAL_LINKS, false).Lost?)
  }

  lemma {:induction false} NotThroughDangling(t: Tree, dst: Path, more: seq<string>, links: nat)
    requires WellFormed(t) && dst in t && t[dst].Link? && Walk(t, [], dst, EVAL_LINKS, false).Lost? && 0 < links <= EVAL_LINKS
    ensures var next := if IsAbs(t[dst].target) then [] else Parent(dst);
      Walk(t, next, Split(t[dst].target, "/") + more, links - 1, false).Lost?
  {
    var done, c, target := Parent(dst), dst[|dst| - 1], t[dst].target;
    var next := if IsAbs(target) then [] else done;
    assert IsAttached(t, dst) && dst == done + [c];
    if Walk(t, next, Split(target, "/") + more, links - 1, false).Reached? {
      FrontIsReached(t, next, Split(target, "/"), more, links - 1);
      assert Split(target, "/") + [] == Split(target, "/");
      assert [c][1..] == [];
      assert Walk(t, done, [c], links, false).Reached?;
      MoreLinks(t, done, [c], links, EVAL_LINKS, false);
      assert [] + done == done;
      WalkAlong(t, [], done, [c], EVAL_LINKS, false);
    }
  }

  lemma {:induction false} DestinationHolds(t: Tree, src: Path, dst: Path)
    requires IsMove(t, src, dst)
    ensures var u := Apply(t, Rename(src, dst)); dst in u && u[dst] == t[src]
  {
    RenameEntries(t, src, dst, dst);
    assert Rebase(dst, dst, src) == src;
  }

  /** After a move a walk that got through before finds nothing if it met the source, and
      otherwise ends where it ended. */
  lemma {:induction false} WalkAfterMove(t: Tree, src: Path, dst: Path, done: Path, rest: seq<string>, links: nat)
    requires IsMove(t, src, dst) && links <= EVAL_LINKS && Walk(t, done, rest, links, false).Reached?
    requires !(src <= done) && !(dst <= done)
    ensures Walk(Apply(t, Rename(src, dst)), done, rest, links, false)
      == if Meets(t, done, rest, links, src) then Lost(NotExist) else Walk(t, done, rest, links, false)
    decreases links, |rest|
  {
    if rest != [] {
      var c, more := rest[0], rest[1..];
      if c == "" || c == "." {
        WalkAfterMove(t, src, dst, done, more, links);
      } else if c == ".." {
        WalkAfterMove(t, src, dst, Parent(done), more, links);
      } else {
        var here := done + [c];
        RenameEntries(t, src, dst, here);
        if src <= here {
          if dst <= here { SourceIsApart(t, src, dst, here); }
        } else if here == dst {
          if t[dst].Link? { NotThroughDangling(t, dst, more, links); }
          DestinationHolds(t, src, dst);
        } else if t[here].Directory? {
          WalkAfterMove(t, src, dst, here, more, links);
        } else if t[here].Link? {
          var target := t[here].target;
          WalkAfterMove(t, src, dst, if IsAbs(target) then [] else done, Split(target, "/") + more, links - 1);
        }
      }
    }
  }

  lemma {:induction false} SourceIsApart(t: Tree, src: Path, dst: Path, p: Path)
    requires WellFormed(t) && CanApply(t, Rename(src, dst)) && src <= p
    ensures !(dst <= p)
  {
    if dst <= p {
      FrontsCompare(src, dst, p);
      BelowIsDirectory(t, src, dst);
    }
  }

  lemma {:induction false} FrontsCompare(a: Path, b: Path, p: Path)
    requires a <= p && b <= p
    ensures a <= b || b < a
  {
    assert a == p[..|a|] && b == p[..|b|];
    if |a| <= |b| {
      assert a == b[..|a|];
    } else {
      assert b == a[..|b|];
    }
  }

  // ----- what `mv` achieves

  /** The subtree of the source stands at the destination, and all else is as it was. */
  ghost predicate HasMoved(t: Tree, u: Tree, src: Path, dst: Path)
  {
    forall p ::
      if dst <= p then (p in u <==> Rebase(p, dst, src) in t) && (p in u ==> u[p] == t[Rebase(p, dst, src)])
      else (p in u <==> p in t && !(src <= p)) && (p in u ==> u[p] == t[p])
  }

  lemma {:induction false} PlannedMove(t: Tree, root: Path, limits: Limits, call: Call, src: Path, dst: Path)
    requires IsServable(t, root) && call.Move? && Plan(t, root, limits, call) == Success(Rename(src, dst))
    ensures ResolvePath(t, root, call.source) == Success(src) && ResolveTouchPath(t, root, call.destination) == Success(dst)
    ensures IsMove(t, src, dst) && Within(root, dst)
    ensures var found := ResolvePath(t, root, call.destination);
      found == Failure(NOT_FOUND) || (found == Success(dst) && t[src].File?)
  {
    hide ResolvePath, Walk, CanApply;
    ResolvedIsReal(t, root, call.source);
    ResolvedIsReal(t, root, call.destination);
    ResolvedTouchIsTouchable(t, root, call.destination);
    PlansAreSound(t, root, limits, call);
  }

  /** After a successful `mv` to another place the subtree of the source stands at the
      destination and all else is as it was; the path of the source no longer resolves; and the
      path of the destination resolves to the moved entry exactly if it did not lead through
      the source, as it can through a link in a directory that is moved. */
  lemma {:induction false} MovedIsThere(t: Tree, root: Path, limits: Limits, call: Call, src: Path, dst: Path)
    requires IsServable(t, root) && call.Move? && Plan(t, root, limits, call) == Success(Rename(src, dst))
    ensures var u := After(t, Plan(t, root, limits, call));
      && HasMoved(t, u, src, dst)
      && ResolvePath(u, root, call.source) == Failure(NOT_FOUND)
      && ResolvePath(u, root, call.destination)
           == if LeadsThrough(t, root, call.destination, src) then Failure(NOT_FOUND) else Success(dst)
  {
    PlannedMove(t, root, limits, call, src, dst);
    CallIsConfined(t, root, limits, call);
    MoveMoves(t, src, dst);
    hide Plan, ResolvePath, ResolveTouchPath, IsMove, HasMoved, LeadsThrough, Apply, WellFormed, Walk, IsTouchable;
    SourceIsGone(t, root, call.source, src, dst);
    if ResolvePath(t, root, call.destination).Success? {
      ReplacedIsThere(t, root, call.destination, src, dst);
    } else {
      NewIsThere(t, root, call.destination, src, dst);
    }
  }

  lemma {:induction false} MoveMoves(t: Tree, src: Path, dst: Path)
    requires IsMove(t, src, dst)
    ensures HasMoved(t, Apply(t, Rename(src, dst)), src, dst)
  {
    forall p {
      RenameEntries(t, src, dst, p);
    }
  }

  lemma {:induction false} SourceIsGone(t: Tree, root: Path, source: string, src: Path, dst: Path)
    requires IsServable(t, root) && IsMove(t, src, dst) && ResolvePath(t, root, source) == Success(src)
    requires IsServable(Apply(t, Rename(src, dst)), root)
    ensures ResolvePath(Apply(t, Rename(src, dst)), root, source) == Failure(NOT_FOUND)
  {
    ResolvePathAccepts(t, root, source, src);
    ArrivingMeets(t, [], root + Parts(source), EVAL_LINKS, src);
    WalkAfterMove(t, src, dst, [], root + Parts(source), EVAL_LINKS);
    ResolvePathAccepts(Apply(t, Rename(src, dst)), root, source, src);
  }

  lemma {:induction false} ReplacedIsThere(t: Tree, root: Path, destination: string, src: Path, dst: Path)
    requires IsServable(t, root) && IsMove(t, src, dst) && ResolvePath(t, root, destination) == Success(dst)
    requires t[src].File? && IsServable(Apply(t, Rename(src, dst)), root)
    ensures !LeadsThrough(t, root, destination, src)
    ensures ResolvePath(Apply(t, Rename(src, dst)), root, destination) == Success(dst)
  {
    hide ResolvePath, Parts, Meets, Walk, WellFormed, Apply;
    var parts := Parts(destination);
    ResolvePathAccepts(t, root, destination, dst);
    if Meets(t, [], root + parts, EVAL_LINKS, src) {
      FileEndsWalk(t, [], root + parts, EVAL_LINKS, src);
    }
    if LeadsThrough(t, root, destination, src) { LeadingMeets(t, root, destination, src); }
    WalkAfterMove(t, src, dst, [], root + parts, EVAL_LINKS);
    ResolvePathAccepts(Apply(t, Rename(src, dst)), root, destination, dst);
  }

  lemma {:induction false} NewIsThere(t: Tree, root: Path, destination: string, src: Path, dst: Path)
    requires IsServable(t, root) && IsMove(t, src, dst) && ResolvePath(t, root, destination) == Failure(NOT_FOUND)
    requires ResolveTouchPath(t, root, destination) == Success(dst) && Within(root, dst)
    requires IsServable(Apply(t, Rename(src, dst)), root)
    ensures ResolvePath(Apply(t, Rename(src, dst)), root, destination)
      == if LeadsThrough(t, root, destination, src) then Failure(NOT_FOUND) else Success(dst)
  {
    hide ResolvePath, ResolveTouchPath, Parts, Meets, WellFormed, Apply;
    var u := Apply(t, Rename(src, dst));
    var parts := Parts(destination);
    TouchHasParts(t, root, destination);
    var front, last := parts[..|parts| - 1], parts[|parts| - 1];
    assert parts == front + [last] && root + parts == root + front + [last];
    ResolvePathAccepts(t, root, destination, dst);
    var parent := TouchPlace(t, root, destination, front, last, dst);
    WalkAfterMove(t, src, dst, [], root + front, EVAL_LINKS);
    if LeadsThrough(t, root, destination, src) {
      LostStaysLost(u, [], root + front, [last], EVAL_LINKS);
    } else {
      RenameEntries(t, src, dst, parent);
      DestinationHolds(t, src, dst);
      WalkLastStep(u, [], root + front, last, EVAL_LINKS);
    }
    ResolvePathAccepts(u, root, destination, dst);
  }

  // ----- a move after which the destination does not resolve

  /** A workspace `/ws` with a directory `a`, in which a link `l` leads back to `/ws`. */
  function DiskWithLoop(ws: string, a: string, l: string): Tree
  {
    map[[] := Directory, [ws] := Directory, [ws, a] := Directory, [ws, a, l] := Link("/" + ws)]
  }

  ghost predicate AreLoopNames(ws: string, a: string, l: string, b: string)
  {
    && IsEntryName(ws) && IsEntryName(a) && IsEntryName(l) && IsEntryName(b) && a != b
    && !IsSpace(a[0]) && a[0] != '\\'
  }

  lemma {:induction false} DiskWithLoopIsServable(ws: string, a: string, l: string, b: string)
    requires AreLoopNames(ws, a, l, b)
    ensures var t := DiskWithLoop(ws, a, l);
      && IsServable(t, [ws]) && IsReal(t, [ws, a]) && [ws, b] !in t && t[[ws, a, l]] == Link("/" + ws)
  {
    assert Parent([ws]) == [] && Parent([ws, a]) == [ws] && Parent([ws, a, l]) == [ws, a];
    assert [ws, b][1] == b && [ws, a][1] == a;
  }

  /** The walk goes into `a` and through the link back to the workspace. */
  lemma {:induction false} WalkThroughLoop(ws: string, a: string, l: string, b: string, rest: seq<string>, links: nat)
    requires AreLoopNames(ws, a, l, b) && links > 0
    ensures Walk(DiskWithLoop(ws, a, l), [], [ws, a, l] + rest, links, false)
      == Walk(DiskWithLoop(ws, a, l), [ws], rest, links - 1, false)
  {
    var t := DiskWithLoop(ws, a, l);
    DiskWithLoopIsServable(ws, a, l, b);
    assert [ws, a] + ([l] + rest) == [ws, a, l] + rest && [] + [ws, a] == [ws, a] && [] + [ws] == [ws];
    WalkAlong(t, [], [ws, a], [l] + rest, links, false);
    assert ([l] + rest)[1..] == rest && [ws, a] + [l] == [ws, a, l];
    SplitOfAbsPath([ws]);
    assert AbsPath([ws]) == "/" + ws;
    WalkAlong(t, [], [ws], rest, links - 1, false);
    hide DiskWithLoop, AreLoopNames;
    LinkToTop(t, [ws, a], l, ws, rest, links);
  }

  lemma {:induction false} LinkToTop(t: Tree, done: Path, l: string, ws: string, rest: seq<string>, links: nat)
    requires IsName(l) && done + [l] in t && t[done + [l]] == Link("/" + ws) && links > 0
    requires Split("/" + ws, "/") == [""] + [ws]
    ensures Walk(t, done, [l] + rest, links, false) == Walk(t, [], [ws] + rest, links - 1, false)
  {
    var next := Split("/" + ws, "/") + rest;
    assert next[0] == "" && next[1..] == [ws] + rest;
    assert ([l] + rest)[1..] == rest;
  }

  lemma {:induction false} NamesAreAcceptable(root: Path, parts: seq<string>)
    requires root != [] && parts != [] && forall i :: 0 <= i < |parts| ==> IsEntryName(parts[i])
    requires parts[0] != "" && !IsSpace(parts[0][0]) && parts[0][0] != '\\'
    ensures IsAcceptable(root, RelPath(parts)) && Parts(RelPath(parts)) == parts
  {
    PartsOfRelPath(parts);
    JoinWithoutNul(parts);
    assert RelPath(parts)[0] == parts[0][0];
  }

  /** Moving `a` to `a/l/b` succeeds and makes it `/ws/b`; `a/l/b` leads nowhere then. */
  lemma {:induction false} MoveThroughItself(limits: Limits, ws: string, a: string, l: string, b: string)
    requires AreLoopNames(ws, a, l, b)
    ensures var t, call := DiskWithLoop(ws, a, l), Move(RelPath([a]), RelPath([a, l, b]), false);
      && IsServable(t, [ws]) && Plan(t, [ws], limits, call) == Success(Rename([ws, a], [ws, b]))
      && ResolvePath(After(t, Plan(t, [ws], limits, call)), [ws], call.destination) == Failure(NOT_FOUND)
  {
    var t, root, call := DiskWithLoop(ws, a, l), [ws], Move(RelPath([a]), RelPath([a, l, b]), false);
    DiskWithLoopIsServable(ws, a, l, b);
    LoopResolves(ws, a, l, b);
    assert [ws, a] != [ws] && !([ws, a] <= [ws, b]) by { assert [ws, a][1] == a && [ws, b][1] == b; }
    hide DiskWithLoop, AreLoopNames, RelPath, ResolvePath, ResolveTouchPath, WellFormed, Meets;
    FreeMoveIsPlanned(t, root, limits, call, [ws, a], [ws, b]);
    MovedIsThere(t, root, limits, call, [ws, a], [ws, b]);
  }

  lemma {:induction false} FreeMoveIsPlanned(t: Tree, root: Path, limits: Limits, call: Call, src: Path, dst: Path)
    requires call.Move? && src in t && src != root && dst !in t && !(src <= dst)
    requires ResolvePath(t, root, call.source) == Success(src) && ResolveTouchPath(t, root, call.destination) == Success(dst)
    ensures Plan(t, root, limits, call) == Success(Rename(src, dst))
  {
    hide ResolvePath, ResolveTouchPath;
  }

  lemma {:induction false} LoopResolves(ws: string, a: string, l: string, b: string)
    requires AreLoopNames(ws, a, l, b)
    ensures var t := DiskWithLoop(ws, a, l);
      && ResolvePath(t, [ws], RelPath([a])) == Success([ws, a])
      && ResolveTouchPath(t, [ws], RelPath([a, l, b])) == Success([ws, b])
      && LeadsThrough(t, [ws], RelPath([a, l, b]), [ws, a])
  {
    var t, root := DiskWithLoop(ws, a, l), [ws];
    DiskWithLoopIsServable(ws, a, l, b);
    NamesAreAcceptable(root, [a]);
    NamesAreAcceptable(root, [a, l]);
    NamesAreAcceptable(root, [a, l, b]);
    assert root + [a] == [ws, a] && root + [a, l] == [ws, a, l] + [] && root + [a, l, b] == [ws, a, l] + [b];
    WalkOfReal(t, [ws, a], EVAL_LINKS, false);
    WalkThroughLoop(ws, a, l, b, [], EVAL_LINKS);
    WalkThroughLoop(ws, a, l, b, [b], EVAL_LINKS);
    assert [ws] + [b] == [ws, b];
    assert Walk(t, [ws], [b], EVAL_LINKS - 1, false) == Lost(NotExist);
    hide DiskWithLoop, RelPath, Parts, ResolvePath, ResolveTouchPath, Walk, WellFormed;
    ResolvePathAccepts(t, root, RelPath([a]), [ws, a]);
    ResolvePathAccepts(t, root, RelPath([a, l]), [ws]);
    ResolvePathAccepts(t, root, RelPath([a, l, b]), []);
    assert [a, l, b] == [a, l] + [b];
    TouchOfMissing(t, root, RelPath([a, l, b]), [a, l], b);
    assert [a, l, b][..2] == [a, l];
    LoopMeets(t, ws, a, l);
  }

  lemma {:induction false} LoopMeets(t: Tree, ws: string, a: string, l: string)
    requires WellFormed(t) && IsReal(t, [ws, a]) && IsDirectory(t, [ws])
    ensures Meets(t, [], [ws] + [a, l], EVAL_LINKS, [ws, a])
  {
    WalkOfReal(t, [ws, a], EVAL_LINKS, false);
    ArrivingMeets(t, [], [ws, a], EVAL_LINKS, [ws, a]);
    MeetsEarlier(t, [], [ws, a], [l], EVAL_LINKS, [ws, a]);
    assert [ws, a] + [l] == [ws] + [a, l];
  }
}
