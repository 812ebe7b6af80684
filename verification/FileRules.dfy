/** When each file tool succeeds and what it leaves, in terms of the disk and the flags of the
    call, and what a session can do to a file. */
module FileRules {
  import opened Results
  import opened Paths
  import opened Disk
  import opened Workspace
  import opened FileTools
  import opened MoveEffects

  // ----- one call

  lemma {:induction false} TouchRule(t: Tree, root: Path, limits: Limits, path: string)
    requires IsServable(t, root)
    ensures var at, plan := ResolveTouchPath(t, root, path), Plan(t, root, limits, Touch(path));
      && (plan.Success? <==>
            && at.Success?
            && (at.value !in t || t[at.value].File? || (t[at.value].Link? && OpenTarget(t, at.value).Reached?)))
      && After(t, plan) ==
           if plan.Failure? || (at.value in t && t[at.value].File?) then t
           else if at.value in t then t[OpenTarget(t, at.value).path := File("")]
           else t[at.value := File("")]
  {
    hide ResolveTouchPath, Walk;
    ResolvedTouchIsTouchable(t, root, path);
    if ResolveTouchPath(t, root, path).Success? { OpenOfTouchable(t, root, ResolveTouchPath(t, root, path).value); }
  }

  lemma {:induction false} MkdirRule(t: Tree, root: Path, limits: Limits, path: string)
    requires IsServable(t, root)
    ensures var at, plan := ResolveTouchPath(t, root, path), Plan(t, root, limits, Mkdir(path));
      && (plan.Success? <==> at.Success? && at.value !in t)
      && After(t, plan) == if plan.Success? then t[at.value := Directory] else t
  {
    hide ResolveTouchPath;
    assert PlanMkdir(t, root, path) == Plan(t, root, limits, Mkdir(path));
  }

  /** An existing file is only written with one of the flags. */
  lemma {:induction false} WriteRule(t: Tree, root: Path, limits: Limits, path: string, content: string, append: bool, overwrite: bool)
    requires IsServable(t, root)
    ensures var at, plan := ResolveTouchPath(t, root, path), Plan(t, root, limits, WriteFile(path, content, append, overwrite));
      && (plan.Success? <==>
            && |content| <= limits.maxWrite && !(append && overwrite) && at.Success?
            && (at.value !in t || (t[at.value].File? && (append || overwrite))))
      && After(t, plan) ==
           if plan.Failure? then t
           else if append && at.value in t then t[at.value := File(t[at.value].content + content)]
           else t[at.value := File(content)]
  {
    hide ResolveTouchPath;
    assert PlanWrite(t, root, limits, path, content, append, overwrite)
      == Plan(t, root, limits, WriteFile(path, content, append, overwrite));
  }

  /** A link that does not lead to an entry counts as free, and the copy goes where it leads. */
  lemma {:induction false} CopyRule(t: Tree, root: Path, limits: Limits, source: string, destination: string, overwrite: bool)
    requires IsServable(t, root)
    ensures var src, at := ResolvePath(t, root, source), ResolveTouchPath(t, root, destination);
      var plan := Plan(t, root, limits, Copy(source, destination, overwrite));
      && (plan.Success? <==>
            && src.Success? && src.value in t && t[src.value].File? && |t[src.value].content| <= limits.maxCopy
            && at.Success? && at.value != src.value
            && (|| at.value !in t || (t[at.value].File? && overwrite)
                || (t[at.value].Link? && OpenTarget(t, at.value).Reached?)))
      && After(t, plan) ==
           if plan.Failure? then t
           else if at.value in t && t[at.value].Link? then t[OpenTarget(t, at.value).path := t[src.value]]
           else t[at.value := t[src.value]]
  {
    hide ResolvePath, ResolveTouchPath, Walk, WellFormed;
    var at := ResolveTouchPath(t, root, destination);
    ResolvedTouchIsTouchable(t, root, destination);
    if at.Success? {
      OpenOfTouchable(t, root, at.value);
      StatOfTouchable(t, root, at.value);
    }
  }

  /** What is there for `os.Stat`: entries that are no dangling links. */
  lemma {:induction false} StatOfTouchable(t: Tree, root: Path, p: Path)
    requires IsServable(t, root) && IsTouchable(t, root, p)
    ensures Stat(t, p).Reached? <==> IsReal(t, p)
  {
    if IsReal(t, p) {
      WalkOfReal(t, p, KERNEL_LINKS, false);
    } else if p in t {
      DanglingIsLost(t, root, p);
    } else {
      FreeIsLost(t, p);
    }
  }

  lemma {:induction false} FreeIsLost(t: Tree, p: Path)
    requires WellFormed(t) && p !in t && p != [] && IsDirectory(t, Parent(p)) && IsName(p[|p| - 1])
    ensures Stat(t, p) == Lost(NotExist)
  {
    var d, c := Parent(p), p[|p| - 1];
    assert p == d + [c] && [] + d == d;
    WalkAlong(t, [], d, [c], KERNEL_LINKS, false);
  }

  /** Only a file replaces an entry, only one that is no directory, and only with the flag; a
      directory does not move below itself. */
  lemma {:induction false} MoveRule(t: Tree, root: Path, limits: Limits, source: string, destination: string, overwrite: bool)
    requires IsServable(t, root)
    ensures var src, at := ResolvePath(t, root, source), ResolveTouchPath(t, root, destination);
      var plan := Plan(t, root, limits, Move(source, destination, overwrite));
      && (plan.Success? <==>
            && src.Success? && src.value in t && src.value != root && at.Success?
            && if at.value in t then overwrite && !t[at.value].Directory? && !t[src.value].Directory?
               else !(t[src.value].Directory? && src.value <= at.value))
      && (plan.Success? && src.value != at.value ==> HasMoved(t, After(t, plan), src.value, at.value))
      && (plan.Failure? || src.value == at.value ==> After(t, plan) == t)
  {
    hide ResolvePath, ResolveTouchPath, WellFormed, IsTouchable, HasMoved;
    var src, at := ResolvePath(t, root, source), ResolveTouchPath(t, root, destination);
    var call := Move(source, destination, overwrite);
    if Plan(t, root, limits, call).Success? && src.value != at.value {
      assert Plan(t, root, limits, call) == Success(Rename(src.value, at.value));
      MovedIsThere(t, root, limits, call, src.value, at.value);
    }
  }

  lemma {:induction false} RemoveRule(t: Tree, root: Path, limits: Limits, path: string)
    requires IsServable(t, root)
    ensures var at, plan := ResolvePath(t, root, path), Plan(t, root, limits, Remove(path));
      && (plan.Success? <==> at.Success? && at.value in t && t[at.value].File?)
      && After(t, plan) == if plan.Success? then t - {at.value} else t
  {
    hide ResolvePath;
    assert PlanRemove(t, root, path) == Plan(t, root, limits, Remove(path));
  }

  /** A directory is only removed when no entry is below it. */
  lemma {:induction false} RemoveDirectoryRule(t: Tree, root: Path, limits: Limits, path: string)
    requires IsServable(t, root)
    ensures var at, plan := ResolvePath(t, root, path), Plan(t, root, limits, RemoveDirectory(path));
      && (plan.Success? <==>
            at.Success? && at.value in t && t[at.value].Directory? && at.value != root && forall p :: p in t ==> !(at.value < p))
      && After(t, plan) == if plan.Success? then t - {at.value} else t
  {
    hide ResolvePath;
    var at := ResolvePath(t, root, path);
    if at.Success? && at.value in t { ChildrenAreBelow(t, at.value); }
  }

  /** A directory with an entry below it has a child. */
  lemma {:induction false} ChildrenAreBelow(t: Tree, at: Path)
    requires WellFormed(t) && at in t
    ensures HasChild(t, at) <==> exists p :: p in t && at < p
  {
    if p :| p in t && at < p {
      var child := p[..|at| + 1];
      if child != p { AncestorsAreDirectories(t, p, |at| + 1); }
      assert p[..|p|] == p && child in t && Parent(child) == at && child != [];
    }
    if q :| q in t && q != [] && Parent(q) == at {
      assert at < q;
    }
  }

  /** Exactly files can be read, from their start up to the limit of the server or a smaller one,
      and the flag tells whether more follows. */
  lemma {:induction false} ReadRule(t: Tree, root: Path, limits: Limits, path: string, limit: int)
    requires IsServable(t, root)
    ensures var at, r := ResolvePath(t, root, path), ReadText(t, root, limits, path, limit);
      && (r.Success? <==> at.Success? && at.value in t && t[at.value].File?)
      && (r.Success? ==>
            var content, most := t[at.value].content, if 0 < limit < limits.maxRead then limit else limits.maxRead;
            && r.value.0 <= content && (r.value.1 <==> r.value.0 != content)
            && |r.value.0| == if |content| < most then |content| else most)
  {
    hide ResolvePath;
  }

  // ----- a file through a session

  /** The call is one that may change or take away the file at `f`: it writes there with one of
      the flags, it replaces it by a copy or a move with the flag, it moves it or a directory
      above it, or it removes it. */
  ghost predicate Names(t: Tree, root: Path, call: Call, f: Path)
  {
    match call
    case WriteFile(path, _, append, overwrite) => (append || overwrite) && ResolveTouchPath(t, root, path) == Success(f)
    case Copy(_, destination, overwrite) => overwrite && ResolveTouchPath(t, root, destination) == Success(f)
    case Move(source, destination, overwrite) =>
      || (overwrite && ResolveTouchPath(t, root, destination) == Success(f))
      || (ResolvePath(t, root, source).Success? && ResolvePath(t, root, source).value <= f)
    case Remove(path) => ResolvePath(t, root, path) == Success(f)
    case _ => false
  }

  /** A file keeps its place and its content under every call that does not name it so. */
  lemma {:induction false} FileStays(t: Tree, root: Path, limits: Limits, call: Call, f: Path)
    requires IsServable(t, root) && f in t && t[f].File? && !Names(t, root, call, f)
    ensures var u := After(t, Plan(t, root, limits, call)); f in u && u[f] == t[f]
  {
    hide Plan, ResolvePath, ResolveTouchPath, WellFormed, Walk, After;
    match call
    case Touch(path) =>
      TouchRule(t, root, limits, path);
      if OpenedThroughLink(t, root, call).Some? { LinkLeadsToFree(t, root, path); }
    case Mkdir(path) => MkdirRule(t, root, limits, path);
    case WriteFile(path, content, append, overwrite) => WriteRule(t, root, limits, path, content, append, overwrite);
    case Copy(source, destination, overwrite) =>
      CopyRule(t, root, limits, source, destination, overwrite);
      if OpenedThroughLink(t, root, call).Some? { LinkLeadsToFree(t, root, destination); }
    case Move(source, destination, overwrite) => FileStaysBeside(t, root, limits, source, destination, overwrite, f);
    case Remove(path) => RemoveRule(t, root, limits, path);
    case RemoveDirectory(path) => RemoveDirectoryRule(t, root, limits, path);
  }

  /** Where a dangling link leads to there is no entry. */
  lemma {:induction false} LinkLeadsToFree(t: Tree, root: Path, path: string)
    requires IsServable(t, root) && ResolveTouchPath(t, root, path).Success?
    requires var p := ResolveTouchPath(t, root, path).value; p in t && t[p].Link? && OpenTarget(t, p).Reached?
    ensures OpenTarget(t, ResolveTouchPath(t, root, path).value).path !in t
  {
    ResolvedTouchIsTouchable(t, root, path);
    OpenOfTouchable(t, root, ResolveTouchPath(t, root, path).value);
  }

  lemma {:induction false} FileStaysBeside(t: Tree, root: Path, limits: Limits, source: string, destination: string, overwrite: bool,
      f: Path)
    requires IsServable(t, root) && f in t && t[f].File? && !Names(t, root, Move(source, destination, overwrite), f)
    ensures var u := After(t, Plan(t, root, limits, Move(source, destination, overwrite))); f in u && u[f] == t[f]
  {
    hide Plan, ResolvePath, ResolveTouchPath, Walk, After;
    MoveRule(t, root, limits, source, destination, overwrite);
    var plan := Plan(t, root, limits, Move(source, destination, overwrite));
    if plan.Success? && ResolvePath(t, root, source).value != ResolveTouchPath(t, root, destination).value {
      NothingBelowFree(t, root, destination, f);
      StaysBeside(t, After(t, plan), ResolvePath(t, root, source).value, ResolveTouchPath(t, root, destination).value, f);
    }
  }

  lemma {:induction false} StaysBeside(t: Tree, u: Tree, src: Path, dst: Path, f: Path)
    requires HasMoved(t, u, src, dst) && f in t && !(src <= f) && !(dst < f) && dst != f
    ensures f in u && u[f] == t[f]
  {
    assert f in u <==> f in t && !(src <= f);
  }

  /** Below a name that is free, a file or a link there is no entry. */
  lemma {:induction false} NothingBelowFree(t: Tree, root: Path, path: string, f: Path)
    requires IsServable(t, root) && f in t && ResolveTouchPath(t, root, path).Success?
    requires var p := ResolveTouchPath(t, root, path).value; p in t ==> !t[p].Directory?
    ensures !(ResolveTouchPath(t, root, path).value < f)
  {
    hide ResolveTouchPath;
    var p := ResolveTouchPath(t, root, path).value;
    if p < f { BelowIsDirectory(t, f, p); }
  }

  /** No call of the session names the file in that way. */
  ghost predicate NeverNames(t: Tree, root: Path, limits: Limits, calls: seq<Call>, f: Path)
    decreases |calls|
  {
    calls == [] ||
    (!Names(t, root, calls[0], f) && NeverNames(After(t, Plan(t, root, limits, calls[0])), root, limits, calls[1..], f))
  }

  /** Over every session: a file is where it was with the content it had, unless some call
      names it with a flag, moves it or removes it. */
  lemma {:induction false} FileStaysThroughout(t: Tree, root: Path, limits: Limits, calls: seq<Call>, f: Path)
    requires IsServable(t, root) && f in t && t[f].File? && NeverNames(t, root, limits, calls, f)
    ensures var u := AfterAll(t, root, limits, calls); f in u && u[f] == t[f]
    decreases |calls|
  {
    if calls != [] {
      hide Plan, Names, WellFormed;
      CallIsConfined(t, root, limits, calls[0]);
      FileStays(t, root, limits, calls[0], f);
      FileStaysThroughout(After(t, Plan(t, root, limits, calls[0])), root, limits, calls[1..], f);
    }
  }
}
