/** The file tools of the server (internal/mcpserver/tools.go): what each call does to
    the disk, and what no sequence of calls can do to it. */
module FileTools {
  import opened Results
  import opened Paths
  import opened Disk
  import opened Workspace

  datatype Limits = Limits(maxWrite: nat, maxCopy: nat, maxRead: nat)

  datatype Call =
    | Touch(path: string)
    | Mkdir(path: string)
    | WriteFile(path: string, content: string, append: bool, overwrite: bool)
    | Copy(source: string, destination: string, overwrite: bool)
    | Move(source: string, destination: string, overwrite: bool)
    | Remove(path: string)
    | RemoveDirectory(path: string)

  /** The argument that names where a call works; it is also what the call answers. */
  function Destination(call: Call): (argument: string)
    ensures argument == if call.Copy? || call.Move? then call.destination else call.path
  {
    match call
    case Copy(_, destination, _) => destination
    case Move(_, destination, _) => destination
    case _ => call.path
  }

  // ----- the edit each call plans, if it does not fail

  function PlanTouch(t: Tree, root: Path, path: string): Result<Edit, ToolError>
  {
    var p :- ResolveTouchPath(t, root, path);
    TouchAt(t, p)
  }

  function TouchAt(t: Tree, p: Path): Result<Edit, ToolError>
  {
    match OpenTarget(t, p)
    case Lost(_) => Failure(ToolError(PermissionDenied, "file could not be touched"))
    case Reached(q) =>
      if q !in t then Success(Put(q, File("")))
      else if t[q].Directory? then Failure(ToolError(PermissionDenied, "file could not be touched"))
      else Success(Keep)
  }

  function PlanMkdir(t: Tree, root: Path, path: string): Result<Edit, ToolError>
  {
    var p :- ResolveTouchPath(t, root, path);
    MkdirAt(t, p)
  }

  function MkdirAt(t: Tree, p: Path): Result<Edit, ToolError>
  {
    if p in t then Failure(ToolError(InvalidArguments, "path already exists"))
    else Success(Put(p, Directory))
  }

  function PlanWrite(t: Tree, root: Path, limits: Limits, path: string, content: string, append: bool, overwrite: bool)
    : Result<Edit, ToolError>
  {
    if |content| > limits.maxWrite then Failure(ToolError(InvalidArguments, "content exceeds the allowed size"))
    else if append && overwrite then Failure(ToolError(InvalidArguments, "set only one of overwrite or append"))
    else
      var p :- ResolveTouchPath(t, root, path);
      WriteTo(t, p, content, append, overwrite)
  }

  function WriteTo(t: Tree, p: Path, content: string, append: bool, overwrite: bool): Result<Edit, ToolError>
  {
    if p !in t then Success(Put(p, File(content)))
    else match t[p]
      case Directory => Failure(ToolError(InvalidArguments, "path is a directory, not a file"))
      case Link(_) => Failure(ToolError(InvalidArguments, "path is not a regular file"))
      case File(before) =>
        if append then Success(Put(p, File(before + content)))
        else if overwrite then Success(Put(p, File(content)))
        else Failure(ToolError(InvalidArguments, "file exists; set overwrite or append explicitly"))
  }

  function PlanCopy(t: Tree, root: Path, limits: Limits, source: string, destination: string, overwrite: bool)
    : Result<Edit, ToolError>
  {
    var src :- ResolvePath(t, root, source);
    if src !in t || !t[src].File? || |t[src].content| > limits.maxCopy then
      Failure(ToolError(InvalidArguments, "source must be a regular file no larger than 1 MiB"))
    else
      var dst :- ResolveTouchPath(t, root, destination);
      CopyTo(t, src, dst, overwrite)
  }

  function CopyTo(t: Tree, src: Path, dst: Path, overwrite: bool): Result<Edit, ToolError>
    requires src in t
  {
    if src == dst then Failure(ToolError(InvalidArguments, "source and destination must differ"))
    else if Stat(t, dst).Reached? && !overwrite then
      Failure(ToolError(InvalidArguments, "destination already exists; set overwrite to replace it"))
    else match OpenTarget(t, dst)
      case Lost(_) => Failure(ToolError(ToolFailure, "destination could not be written"))
      case Reached(q) =>
        if q in t && t[q].Directory? then Failure(ToolError(ToolFailure, "destination could not be written"))
        else Success(Put(q, t[src]))
  }

  /** `os.Rename`, which refuses to replace a directory. */
  function PlanRename(t: Tree, src: Path, dst: Path): Result<Edit, ToolError>
    requires src in t
  {
    if dst in t && t[dst].Directory? then Failure(ToolError(ToolFailure, "path could not be moved"))
    else if src == dst then Success(Keep)
    else if t[src].Directory? && (dst in t || src <= dst) then Failure(ToolError(ToolFailure, "path could not be moved"))
    else Success(Rename(src, dst))
  }

  function PlanMove(t: Tree, root: Path, source: string, destination: string, overwrite: bool): Result<Edit, ToolError>
  {
    MoveTo(t, root, ResolvePath(t, root, source), ResolveTouchPath(t, root, destination), overwrite)
  }

  function MoveTo(t: Tree, root: Path, src: Result<Path, ToolError>, dst: Result<Path, ToolError>, overwrite: bool)
    : Result<Edit, ToolError>
  {
    if src.Failure? || src.value == root || src.value !in t then
      Failure(ToolError(WorkspaceViolation, "source path is not allowed"))
    else if dst.Failure? then Failure(dst.error)
    else if dst.value in t && !overwrite then
      Failure(ToolError(InvalidArguments, "destination already exists; set overwrite to replace it"))
    else PlanRename(t, src.value, dst.value)
  }

  function PlanRemove(t: Tree, root: Path, path: string): Result<Edit, ToolError>
  {
    var p := ResolvePath(t, root, path);
    if p.Failure? || p.value == root then Failure(ToolError(WorkspaceViolation, "path is not allowed"))
    else if p.value !in t || !t[p.value].File? then Failure(ToolError(InvalidArguments, "path is not a regular file"))
    else Success(Drop(p.value))
  }

  function PlanRemoveDirectory(t: Tree, root: Path, path: string): Result<Edit, ToolError>
  {
    var p := ResolvePath(t, root, path);
    if p.Failure? || p.value == root then Failure(ToolError(WorkspaceViolation, "path is not allowed"))
    else if !IsDirectory(t, p.value) then Failure(ToolError(InvalidArguments, "path is not a directory"))
    else if HasChild(t, p.value) then
      Failure(ToolError(InvalidArguments, "directory must be empty"))
    else Success(Drop(p.value))
  }

  function Plan(t: Tree, root: Path, limits: Limits, call: Call): Result<Edit, ToolError>
  {
    match call
    case Touch(path) => PlanTouch(t, root, path)
    case Mkdir(path) => PlanMkdir(t, root, path)
    case WriteFile(path, content, append, overwrite) => PlanWrite(t, root, limits, path, content, append, overwrite)
    case Copy(source, destination, overwrite) => PlanCopy(t, root, limits, source, destination, overwrite)
    case Move(source, destination, overwrite) => PlanMove(t, root, source, destination, overwrite)
    case Remove(path) => PlanRemove(t, root, path)
    case RemoveDirectory(path) => PlanRemoveDirectory(t, root, path)
  }

  // ----- reading

  /** How many bytes a read may give: a limit asked for never raises the one of the server. */
  function ReadLimit(limits: Limits, limit: int): (n: nat)
    ensures n <= limits.maxRead && (0 < limit <= limits.maxRead ==> n == limit)
    ensures limit <= 0 || limit >= limits.maxRead ==> n == limits.maxRead
  {
    if limit <= 0 || limit > limits.maxRead then limits.maxRead else limit
  }

  /** The start of a text, and whether more of it follows. */
  function Excerpt(content: string, n: nat): (r: (string, bool))
    ensures r.0 <= content && |r.0| == (if |content| > n then n else |content|)
    ensures r.1 <==> |r.0| < |content|
  {
    if |content| > n then (content[..n], true) else (content, false)
  }

  /** `readFile`. */
  function ReadText(t: Tree, root: Path, limits: Limits, relative: string, limit: int): Result<(string, bool), ToolError>
  {
    var p :- ResolvePath(t, root, relative);
    if p !in t then Failure(ToolError(ToolFailure, "file could not be inspected"))
    else match t[p]
      case Directory => Failure(ToolError(InvalidArguments, "path is a directory, not a file"))
      case Link(_) => Failure(ToolError(InvalidArguments, "path is not a regular file"))
      case File(content) => Success(Excerpt(content, ReadLimit(limits, limit)))
  }

  /** The disk after a call, failed or not. */
  function After(t: Tree, plan: Result<Edit, ToolError>): Tree
  {
    if plan.Success? then Apply(t, plan.value) else t
  }

  /** The disk after a whole session. */
  function AfterAll(t: Tree, root: Path, limits: Limits, calls: seq<Call>): Tree
    decreases |calls|
  {
    if calls == [] then t
    else AfterAll(After(t, Plan(t, root, limits, calls[0])), root, limits, calls[1..])
  }

  // ----- confinement

  /** Everything the workspace does not contain. */
  ghost function Outside(t: Tree, root: Path): Tree
  {
    map p | p in t && !Within(root, p) :: t[p]
  }

  ghost predicate IsServable(t: Tree, root: Path)
  {
    WellFormed(t) && IsDirectory(t, root)
  }

  ghost predicate EditIsWithin(root: Path, e: Edit)
  {
    match e
    case Keep => true
    case Put(at, _) => Within(root, at) && at != root
    case Drop(at) => Within(root, at) && at != root
    case Rename(src, dst) => Within(root, src) && src != root && Within(root, dst) && dst != root
  }

  /** Where a call that opens its target with `O_CREATE` would follow a link to: `touch` and
      `cp` do not look at the last component before opening it. */
  function OpenedThroughLink(t: Tree, root: Path, call: Call): Option<Path>
  {
    if !call.Touch? && !call.Copy? then None
    else
      var dst := ResolveTouchPath(t, root, Destination(call));
      if dst.Success? && dst.value in t && t[dst.value].Link? && OpenTarget(t, dst.value).Reached?
      then Some(OpenTarget(t, dst.value).path) else None
  }

  /** What `cp` asks of its source. */
  predicate SourceIsReady(t: Tree, root: Path, limits: Limits, call: Call)
  {
    call.Copy? ==>
      var src := ResolvePath(t, root, call.source);
      src.Success? && src.value in t && t[src.value].File? && |t[src.value].content| <= limits.maxCopy
  }

  /** The one way out: a `touch`, or a `cp` with a source that can be copied, whose last
      component is a dangling link to a free name outside the workspace. */
  ghost predicate LeavesThroughLink(t: Tree, root: Path, limits: Limits, call: Call)
  {
    && SourceIsReady(t, root, limits, call)
    && OpenedThroughLink(t, root, call).Some?
    && !Within(root, OpenedThroughLink(t, root, call).value)
  }

  /** Opening a touchable path arrives at the path itself, or through a dangling link at a free name. */
  lemma {:induction false} OpenOfTouchable(t: Tree, root: Path, p: Path)
    requires IsServable(t, root) && IsTouchable(t, root, p)
    ensures IsReal(t, p) ==> OpenTarget(t, p) == Reached(p) && Stat(t, p) == Reached(p)
    ensures p !in t ==> OpenTarget(t, p) == Reached(p) && Within(root, p) && p != root && p != []
    ensures p in t && t[p].Link? ==>
      var w := OpenTarget(t, p);
      w.Reached? ==> w.path !in t && IsLanding(t, w.path, true)
  {
    if IsReal(t, p) {
      WalkOfReal(t, p, KERNEL_LINKS, true);
      WalkOfReal(t, p, KERNEL_LINKS, false);
    } else if p !in t {
      var d, c := Parent(p), p[|p| - 1];
      assert p == d + [c] && [] + d == d;
      WalkAlong(t, [], d, [c], KERNEL_LINKS, true);
    } else {
      var w := OpenTarget(t, p);
      if w.Reached? {
        PathsAreNames(t, p);
        CreateAgrees(t, [], p, KERNEL_LINKS);
        if Walk(t, [], p, KERNEL_LINKS, false) == w {
          MoreLinks(t, [], p, KERNEL_LINKS, EVAL_LINKS, false);
        }
        WalkArrives(t, [], p, KERNEL_LINKS, true);
      }
    }
  }

  /** A call that opens its target through a link goes ahead unless its source keeps it back:
      the link dangles, so neither an existing destination nor a directory is in the way. */
  lemma {:induction false} OpenedLinkGoesAhead(t: Tree, root: Path, limits: Limits, call: Call)
    requires IsServable(t, root) && OpenedThroughLink(t, root, call).Some?
    ensures Plan(t, root, limits, call).Success? <==> SourceIsReady(t, root, limits, call)
  {
    hide ResolvePath, ResolveTouchPath, Walk, WellFormed, IsTouchable;
    var dst := ResolveTouchPath(t, root, Destination(call)).value;
    ResolvedTouchIsTouchable(t, root, Destination(call));
    OpenOfTouchable(t, root, dst);
    DanglingIsLost(t, root, dst);
  }

  lemma {:induction false} DanglingIsLost(t: Tree, root: Path, p: Path)
    requires IsServable(t, root) && IsTouchable(t, root, p) && p in t && t[p].Link?
    ensures Stat(t, p).Lost?
  {
    if Stat(t, p).Reached? {
      MoreLinks(t, [], p, KERNEL_LINKS, EVAL_LINKS, false);
    }
  }

  /** Every planned edit can be carried out, and stays within the workspace unless it
      leaves through a dangling link; in that case it puts a file where there was none. */
  ghost predicate IsSound(t: Tree, root: Path, limits: Limits, call: Call)
  {
    var plan := Plan(t, root, limits, call);
    plan.Success? ==>
      && CanApply(t, plan.value)
      && if LeavesThroughLink(t, root, limits, call)
         then plan.value.Put? && plan.value.at !in t && !Within(root, plan.value.at)
         else EditIsWithin(root, plan.value)
  }

  lemma {:induction false} TouchIsSound(t: Tree, root: Path, limits: Limits, path: string)
    requires IsServable(t, root)
    ensures IsSound(t, root, limits, Touch(path))
  {
    var r := ResolveTouchPath(t, root, path);
    if r.Success? {
      ResolvedTouchIsTouchable(t, root, path);
      TouchEdit(t, root, r.value);
    }
  }

  lemma {:induction false} TouchEdit(t: Tree, root: Path, p: Path)
    requires IsServable(t, root) && IsTouchable(t, root, p)
    ensures var r := TouchAt(t, p);
      r.Success? ==>
        && CanApply(t, r.value) && OpenTarget(t, p).Reached?
        && (r.value.Put? ==> OpenTarget(t, p) == Reached(r.value.at) && r.value.at !in t)
        && if p in t && t[p].Link? then r.value.Put? else EditIsWithin(root, r.value)
  {
    OpenOfTouchable(t, root, p);
  }

  lemma {:induction false} MkdirIsSound(t: Tree, root: Path, limits: Limits, path: string)
    requires IsServable(t, root)
    ensures IsSound(t, root, limits, Mkdir(path))
  {
    var r := ResolveTouchPath(t, root, path);
    if r.Success? {
      ResolvedTouchIsTouchable(t, root, path);
      MkdirEdit(t, root, r.value);
    }
  }

  lemma {:induction false} MkdirEdit(t: Tree, root: Path, p: Path)
    requires IsServable(t, root) && IsTouchable(t, root, p)
    ensures var r := MkdirAt(t, p);
      r.Success? ==> CanApply(t, r.value) && EditIsWithin(root, r.value)
  {
    OpenOfTouchable(t, root, p);
  }

  lemma {:induction false} WriteIsSound(t: Tree, root: Path, limits: Limits, call: Call)
    requires IsServable(t, root) && call.WriteFile?
    ensures IsSound(t, root, limits, call)
  {
    var r := ResolveTouchPath(t, root, call.path);
    if r.Success? {
      ResolvedTouchIsTouchable(t, root, call.path);
      WriteEdit(t, root, r.value, call.content, call.append, call.overwrite);
    }
  }

  lemma {:induction false} WriteEdit(t: Tree, root: Path, p: Path, content: string, append: bool, overwrite: bool)
    requires IsServable(t, root) && IsTouchable(t, root, p)
    ensures var r := WriteTo(t, p, content, append, overwrite);
      r.Success? ==> CanApply(t, r.value) && EditIsWithin(root, r.value)
  {
    OpenOfTouchable(t, root, p);
    if p in t { FileHasParent(t, p); }
  }

  lemma {:induction false} FileHasParent(t: Tree, p: Path)
    requires WellFormed(t) && p in t
    ensures p != [] ==> IsDirectory(t, Parent(p)) && IsEntryName(p[|p| - 1])
  {
    assert IsAttached(t, p);
  }

  lemma {:induction false} CopyIsSound(t: Tree, root: Path, limits: Limits, call: Call)
    requires IsServable(t, root) && call.Copy?
    ensures IsSound(t, root, limits, call)
  {
    hide ResolvePath, ResolveTouchPath, Walk, CanApply, CopyTo, WellFormed;
    var s, r := ResolvePath(t, root, call.source), ResolveTouchPath(t, root, call.destination);
    if s.Success? && s.value in t && t[s.value].File? && r.Success? {
      ResolvedTouchIsTouchable(t, root, call.destination);
      CopyEdit(t, root, s.value, r.value, call.overwrite);
    }
  }

  lemma {:induction false} CopyEdit(t: Tree, root: Path, src: Path, dst: Path, overwrite: bool)
    requires IsServable(t, root) && IsTouchable(t, root, dst) && src in t && t[src].File?
    ensures var r := CopyTo(t, src, dst, overwrite);
      r.Success? ==>
        && CanApply(t, r.value) && r.value.Put? && OpenTarget(t, dst) == Reached(r.value.at)
        && if dst in t && t[dst].Link? then r.value.at !in t else EditIsWithin(root, r.value)
  {
    OpenOfTouchable(t, root, dst);
    if dst in t { FileHasParent(t, dst); }
  }

  lemma {:induction false} RenameIsSound(t: Tree, root: Path, src: Path, dst: Path)
    requires IsServable(t, root) && IsReal(t, src) && Within(root, src) && src != root
    requires IsTouchable(t, root, dst)
    ensures var r := PlanRename(t, src, dst);
      r.Success? ==> CanApply(t, r.value) && EditIsWithin(root, r.value)
  {
    if dst in t { FileHasParent(t, dst); }
    if !t[src].Directory? && dst != [] { NothingBelowFile(t, src, dst); }
  }

  lemma {:induction false} MoveEdit(t: Tree, root: Path, src: Result<Path, ToolError>, dst: Result<Path, ToolError>, overwrite: bool)
    requires IsServable(t, root)
    requires src.Success? ==> IsReal(t, src.value) && Within(root, src.value)
    requires dst.Success? ==> IsTouchable(t, root, dst.value)
    ensures var r := MoveTo(t, root, src, dst, overwrite);
      r.Success? ==> CanApply(t, r.value) && EditIsWithin(root, r.value)
  {
    if src.Success? && src.value != root && dst.Success? {
      RenameIsSound(t, root, src.value, dst.value);
    }
  }

  lemma {:induction false} MoveIsSound(t: Tree, root: Path, limits: Limits, call: Call)
    requires IsServable(t, root) && call.Move?
    ensures IsSound(t, root, limits, call)
  {
    var s, r := ResolvePath(t, root, call.source), ResolveTouchPath(t, root, call.destination);
    if s.Success? { ResolvedIsReal(t, root, call.source); }
    if r.Success? { ResolvedTouchIsTouchable(t, root, call.destination); }
    MoveEdit(t, root, s, r, call.overwrite);
    assert !LeavesThroughLink(t, root, limits, call);
  }

  lemma {:induction false} RemovalsAreSound(t: Tree, root: Path, limits: Limits, call: Call)
    requires IsServable(t, root) && (call.Remove? || call.RemoveDirectory?)
    ensures IsSound(t, root, limits, call)
  {
    hide ResolvePath, WellFormed, Walk;
    var r := ResolvePath(t, root, call.path);
    if r.Success? {
      ResolvedIsReal(t, root, call.path);
      if !t[r.value].Directory? { NothingBelowFile(t, r.value, root); }
    }
  }

  lemma {:induction false} PlansAreSound(t: Tree, root: Path, limits: Limits, call: Call)
    requires IsServable(t, root)
    ensures IsSound(t, root, limits, call)
  {
    match call
    case Touch(path) => TouchIsSound(t, root, limits, path);
    case Mkdir(path) => MkdirIsSound(t, root, limits, path);
    case WriteFile(_, _, _, _) => WriteIsSound(t, root, limits, call);
    case Copy(_, _, _) => CopyIsSound(t, root, limits, call);
    case Move(_, _, _) => MoveIsSound(t, root, limits, call);
    case Remove(_) => RemovalsAreSound(t, root, limits, call);
    case RemoveDirectory(_) => RemovalsAreSound(t, root, limits, call);
  }

  lemma {:induction false} EditWithinKeepsOutside(t: Tree, root: Path, e: Edit)
    requires IsServable(t, root) && CanApply(t, e) && EditIsWithin(root, e)
    ensures Outside(Apply(t, e), root) == Outside(t, root) && IsServable(Apply(t, e), root)
  {
    ApplyKeepsShape(t, e);
    if e.Rename? {
      RenameEntries(t, e.src, e.dst, root);
      forall p | !Within(root, p)
        ensures (p in Apply(t, e) <==> p in t) && (p in t ==> Apply(t, e)[p] == t[p])
      {
        RenameEntries(t, e.src, e.dst, p);
      }
    }
  }

  /** One call leaves everything outside the workspace as it was exactly when it does not
      leave through a dangling link. Either way the workspace stays a directory that is
      reached without crossing a link. */
  lemma {:induction false} CallIsConfined(t: Tree, root: Path, limits: Limits, call: Call)
    requires IsServable(t, root)
    ensures var u := After(t, Plan(t, root, limits, call));
      && IsServable(u, root)
      && (Outside(u, root) == Outside(t, root) <==> !LeavesThroughLink(t, root, limits, call))
  {
    hide Plan, OpenedThroughLink, SourceIsReady, WellFormed, CanApply;
    PlansAreSound(t, root, limits, call);
    if OpenedThroughLink(t, root, call).Some? { OpenedLinkGoesAhead(t, root, limits, call); }
    var plan := Plan(t, root, limits, call);
    if plan.Success? {
      ApplyKeepsShape(t, plan.value);
      if LeavesThroughLink(t, root, limits, call) {
        assert plan.value.at in Outside(Apply(t, plan.value), root);
        assert plan.value.at != root;
      } else {
        EditWithinKeepsOutside(t, root, plan.value);
      }
    }
  }

  /** No call of a session leaves through a dangling link. */
  ghost predicate NeverLeaves(t: Tree, root: Path, limits: Limits, calls: seq<Call>)
    decreases |calls|
  {
    calls == [] ||
    (&& !LeavesThroughLink(t, root, limits, calls[0])
     && NeverLeaves(After(t, Plan(t, root, limits, calls[0])), root, limits, calls[1..]))
  }

  /** Every entry of `a` is in `b`, unchanged. */
  ghost predicate IsKept(a: Tree, b: Tree)
  {
    forall p :: p in a ==> p in b && b[p] == a[p]
  }

  /** No call removes or changes anything outside the workspace; at most it adds a file. */
  lemma {:induction false} CallKeepsOutside(t: Tree, root: Path, limits: Limits, call: Call)
    requires IsServable(t, root)
    ensures IsKept(Outside(t, root), Outside(After(t, Plan(t, root, limits, call)), root))
  {
    CallIsConfined(t, root, limits, call);
    PlansAreSound(t, root, limits, call);
  }

  lemma {:induction false} SessionKeepsOutside(t: Tree, root: Path, limits: Limits, calls: seq<Call>)
    requires IsServable(t, root)
    ensures IsKept(Outside(t, root), Outside(AfterAll(t, root, limits, calls), root))
    decreases |calls|
  {
    if calls != [] {
      var u := After(t, Plan(t, root, limits, calls[0]));
      CallIsConfined(t, root, limits, calls[0]);
      CallKeepsOutside(t, root, limits, calls[0]);
      SessionKeepsOutside(u, root, limits, calls[1..]);
      KeptTwice(Outside(t, root), Outside(u, root), Outside(AfterAll(u, root, limits, calls[1..]), root));
    }
  }

  lemma {:induction false} KeptTwice(a: Tree, b: Tree, c: Tree)
    requires IsKept(a, b) && IsKept(b, c)
    ensures IsKept(a, c) && (a != b ==> a != c)
  {
    if a != b {
      assert exists p :: p in b && p !in a;
    }
  }

  /** Over every session: the workspace stays a linkless directory, and what is outside stays
      as it was exactly when no call leaves through a dangling link. What leaves is never
      taken back. */
  lemma {:induction false} SessionIsConfined(t: Tree, root: Path, limits: Limits, calls: seq<Call>)
    requires IsServable(t, root)
    ensures var u := AfterAll(t, root, limits, calls);
      && IsServable(u, root)
      && (Outside(u, root) == Outside(t, root) <==> NeverLeaves(t, root, limits, calls))
    decreases |calls|
  {
    if calls != [] {
      var u := After(t, Plan(t, root, limits, calls[0]));
      CallIsConfined(t, root, limits, calls[0]);
      CallKeepsOutside(t, root, limits, calls[0]);
      SessionIsConfined(u, root, limits, calls[1..]);
      SessionKeepsOutside(u, root, limits, calls[1..]);
      KeptTwice(Outside(t, root), Outside(u, root), Outside(AfterAll(u, root, limits, calls[1..]), root));
    }
  }

  /** Only `touch` and `cp` can leave at all. */
  lemma {:induction false} OtherToolsNeverLeave(t: Tree, root: Path, limits: Limits, calls: seq<Call>)
    requires IsServable(t, root)
    requires forall i :: 0 <= i < |calls| ==> !calls[i].Touch? && !calls[i].Copy?
    ensures Outside(AfterAll(t, root, limits, calls), root) == Outside(t, root)
    decreases |calls|
  {
    if calls != [] {
      CallIsConfined(t, root, limits, calls[0]);
      OtherToolsNeverLeave(After(t, Plan(t, root, limits, calls[0])), root, limits, calls[1..]);
    }
  }

  ghost predicate NoLinksBelow(t: Tree, root: Path)
  {
    forall p :: p in t && Within(root, p) ==> !t[p].Link?
  }

  /** No tool creates a link, so a session that starts in a workspace without links is
      confined whatever it calls. */
  lemma {:induction false} LinklessSessionIsConfined(t: Tree, root: Path, limits: Limits, calls: seq<Call>)
    requires IsServable(t, root) && NoLinksBelow(t, root)
    ensures var u := AfterAll(t, root, limits, calls);
      Outside(u, root) == Outside(t, root) && NoLinksBelow(u, root)
    decreases |calls|
  {
    if calls != [] {
      var call := calls[0];
      var u := After(t, Plan(t, root, limits, call));
      CallIsConfined(t, root, limits, call);
      LinklessStaysLinkless(t, root, limits, call);
      LinklessSessionIsConfined(u, root, limits, calls[1..]);
    }
  }

  lemma {:induction false} LinklessStaysLinkless(t: Tree, root: Path, limits: Limits, call: Call)
    requires IsServable(t, root) && NoLinksBelow(t, root)
    ensures !LeavesThroughLink(t, root, limits, call)
    ensures NoLinksBelow(After(t, Plan(t, root, limits, call)), root)
  {
    hide ResolvePath, ResolveTouchPath, Walk;
    PlansAreSound(t, root, limits, call);
    var plan := Plan(t, root, limits, call);
    if call.Touch? { ResolvedTouchIsTouchable(t, root, call.path); }
    if call.Copy? { ResolvedTouchIsTouchable(t, root, call.destination); }
    if plan.Success? && plan.value.Rename? {
      var src, dst := plan.value.src, plan.value.dst;
      forall p | p in Apply(t, plan.value) && Within(root, p)
        ensures !Apply(t, plan.value)[p].Link?
      {
        RenameEntries(t, src, dst, p);
        assert dst <= p ==> Within(root, Rebase(p, dst, src));
      }
    }
  }
}
