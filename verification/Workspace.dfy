/** The workspace boundary: how the server turns a relative path into a canonical one
    (internal/mcpserver/workspace.go). Paths are strings where the code tests strings,
    and component lists where it addresses entries of the disk. */
module Workspace {
  import opened Results
  import opened Strings
  import opened Paths
  import opened Disk

  datatype Category = InvalidArguments | WorkspaceViolation | PermissionDenied | ToolFailure
  datatype ToolError = ToolError(category: Category, message: string)

  const NOT_FOUND := ToolError(ToolFailure, "path does not exist")
  const ESCAPES := ToolError(WorkspaceViolation, "path escapes the workspace")

  /** `canonicalWorkspace`: the directory the server is rooted at. */
  function CanonicalWorkspace(t: Tree, cwd: Path, workspace: string): Result<Path, string>
  {
    if IsBlank(workspace) then Failure("workspace must not be empty")
    else
      var absolute := if IsAbs(workspace) then Clean(workspace) else JoinPath(AbsPath(cwd), workspace);
      match EvalSymlinks(t, absolute)
      case Lost(_) => Failure("workspace directory does not exist")
      case Reached(root) =>
        if IsDirectory(t, root) then Success(root) else Failure("workspace is not a directory")
  }

  /** `inside`: a test on strings. */
  predicate Inside(workspace: string, path: string)
  {
    path == workspace || workspace + "/" <= path
  }

  /** The two tests that look for a leading ".." in a cleaned path. */
  predicate StartsWithDotDot(cleaned: string)
  {
    cleaned == ".." || "../" <= cleaned
  }

  /** `resolvePath`: the canonical path of an existing entry. */
  function ResolvePath(t: Tree, root: Path, relative: string): (r: Result<Path, ToolError>)
  {
    if IsBlank(relative) then Failure(ToolError(InvalidArguments, "path must not be empty"))
    else if '\0' in relative then Failure(ToolError(InvalidArguments, "path contains an invalid character"))
    else if IsAbs(relative) || "/" <= relative || "\\" <= relative then
      Failure(ToolError(WorkspaceViolation, "absolute paths are not allowed; use workspace-relative paths"))
    else
      var cleaned := Clean(relative);
      if StartsWithDotDot(cleaned) then Failure(ESCAPES)
      else
        var joined := Clean(JoinPath(AbsPath(root), cleaned));
        if !Inside(AbsPath(root), joined) then Failure(ESCAPES)
        else match EvalSymlinks(t, joined)
          case Lost(NotExist) => Failure(NOT_FOUND)
          case Lost(_) => Failure(ToolError(WorkspaceViolation, "path could not be resolved inside the workspace"))
          case Reached(path) =>
            if !Inside(AbsPath(root), AbsPath(path))
            then Failure(ToolError(WorkspaceViolation, "path resolves outside the workspace"))
            else Success(path)
  }

  /** `resolveTouchPath`: the canonical path of an existing entry, or of a new one
      in an existing directory. */
  function ResolveTouchPath(t: Tree, root: Path, relative: string): (r: Result<Path, ToolError>)
  {
    var found := ResolvePath(t, root, relative);
    if found.Success? || found.error != NOT_FOUND then found
    else if IsBlank(relative) || '\0' in relative || IsAbs(relative) then
      Failure(ToolError(WorkspaceViolation, "path is not allowed"))
    else
      var cleaned := Clean(relative);
      if cleaned == "." || StartsWithDotDot(cleaned) then Failure(ESCAPES)
      else
        var parent :- ResolvePath(t, root, Dir(cleaned));
        if Stat(t, parent).Lost? || !IsDirectory(t, Stat(t, parent).path)
        then Failure(ToolError(InvalidArguments, "parent directory is not available"))
        else
          var path := JoinPath(AbsPath(parent), Base(cleaned));
          if !Inside(AbsPath(root), path) then Failure(ESCAPES) else Success(Parts(path))
  }

  /** `relativePath`: a canonical path as the model sees it. */
  function RelativePath(root: Path, path: Path): string
  {
    Rel(root, path)
  }

  // ----- the string tests mean what they should

  /** Ancestry of component lists. Below "/" the code accepts "/" alone, because it then
      looks for the prefix "//". */
  ghost predicate Within(root: Path, p: Path)
  {
    p == root || (root != [] && root <= p)
  }

  /** On canonical paths the string prefix test is component ancestry, so a sibling
      whose name merely starts the same is outside. */
  lemma {:induction false} InsideIsAncestry(root: Path, p: Path)
    requires AllNames(root) && AllNames(p)
    ensures Inside(AbsPath(root), AbsPath(p)) <==> Within(root, p)
  {
    if AbsPath(p) == AbsPath(root) {
      AbsPathInjective(p, root);
    } else if root == [] {
      RootPrefix(p);
    } else {
      PrefixIsAncestry(root, p);
    }
  }

  lemma {:induction false} PrefixIsAncestry(root: Path, p: Path)
    requires AllNames(root) && AllNames(p) && root != [] && p != root
    ensures AbsPath(root) + "/" <= AbsPath(p) <==> root <= p
  {
    if root <= p {
      var tail := p[|root|..];
      assert p == root + tail;
      JoinOfConcat(root, tail, "/");
    }
    if AbsPath(root) + "/" <= AbsPath(p) {
      PrefixGivesAncestry(root, p, AbsPath(p)[|AbsPath(root)| + 1..]);
    }
  }

  lemma {:induction false} PrefixGivesAncestry(root: Path, p: Path, tail: string)
    requires AllNames(root) && AllNames(p) && root != []
    requires AbsPath(p) == AbsPath(root) + "/" + tail
    ensures root <= p
  {
    var parts := if p == [] then [""] else p;
    var rest := Split(tail, "/");
    calc {
      [""] + parts;
      { SplitOfAbsPath(p); }
      Split(AbsPath(root) + ['/'] + tail, "/");
      { SplitOfConcat(AbsPath(root), '/', tail); }
      Split(AbsPath(root), "/") + rest;
      { SplitOfAbsPath(root); }
      [""] + root + rest;
    }
    SameFront(root, p, parts, rest);
  }

  lemma {:induction false} SameFront(root: Path, p: Path, parts: seq<string>, rest: seq<string>)
    requires [""] + parts == [""] + root + rest && root != [] && root[0] != ""
    requires p == parts || parts == [""]
    ensures root <= p
  {
    assert parts == ([""] + parts)[1..] == ([""] + root + rest)[1..] == root + rest;
    assert parts[0] == root[0];
  }

  lemma {:induction false} RootPrefix(p: Path)
    requires AllNames(p) && p != []
    ensures !(AbsPath([]) + "/" <= AbsPath(p))
  {
    assert IsName(p[0]) && p[0][0] in p[0];
    assert Join(p, "/")[0] == p[0][0];
    assert AbsPath(p)[1] == p[0][0];
    assert (AbsPath([]) + "/")[1] == '/';
  }

  /** The ".." tests are complete: a relative path passes them exactly when its cleaned
      form has no ".." at all; the joined path is then canonical, and it is inside
      unless the workspace is "/" itself. */
  lemma {:induction false} DotDotTestIsComplete(root: Path, relative: string)
    requires AllNames(root) && !IsAbs(relative)
    ensures StartsWithDotDot(Clean(relative)) <==> ".." in Parts(relative)
    ensures !StartsWithDotDot(Clean(relative)) ==>
      && AllNames(Parts(relative))
      && Clean(JoinPath(AbsPath(root), Clean(relative))) == AbsPath(root + Parts(relative))
      && (Inside(AbsPath(root), AbsPath(root + Parts(relative))) <==> root != [] || Parts(relative) == [])
  {
    var parts := Parts(relative);
    PartsAreClean(relative);
    if ".." in parts {
      var i :| 0 <= i < |parts| && parts[i] == "..";
      DotDotLeads(parts, i);
      assert StartsWithDotDot(Clean(relative));
    } else {
      assert AllNames(parts);
      NamesDoNotStartWithDotDot(parts);
      JoinBelow(root, parts);
      PartsOfAbsPath(root + parts);
      InsideIsAncestry(root, root + parts);
    }
  }

  lemma {:induction false} NamesDoNotStartWithDotDot(parts: seq<string>)
    requires AllNames(parts)
    ensures !StartsWithDotDot(RelPath(parts))
  {
    if parts != [] {
      SplitOfJoin(parts, '/');
      SplitAtFirst("..", '/', "");
      LeadingDotDot(RelPath(parts));
    }
  }

  lemma {:induction false} LeadingDotDot(s: string)
    ensures "../" <= s ==> Split(s, "/")[0] == ".."
  {
    if "../" <= s {
      assert s == ".." + ['/'] + s[3..];
      SplitAtFirst("..", '/', s[3..]);
    }
  }

  // ----- what resolution promises

  /** The lexical conditions on an argument. */
  ghost predicate IsAcceptable(root: Path, relative: string)
  {
    && !IsBlank(relative) && '\0' !in relative && !IsAbs(relative) && relative[0] != '\\'
    && ".." !in Parts(relative)
    && (root != [] || Parts(relative) == [])
  }

  lemma {:induction false} SplitWithoutNul(s: string)
    requires '\0' !in s
    ensures FreeOf(Split(s, "/"), '\0')
  {
    TargetParts(s);
  }

  /** `resolvePath` succeeds exactly on acceptable arguments whose walk from the root of
      the disk ends inside the workspace, and then answers where the walk ends. */
  lemma {:induction false} ResolvePathAccepts(t: Tree, root: Path, relative: string, p: Path)
    requires WellFormed(t) && IsDirectory(t, root)
    ensures ResolvePath(t, root, relative) == Success(p) <==>
      && IsAcceptable(root, relative)
      && Walk(t, [], root + Parts(relative), EVAL_LINKS, false) == Reached(p)
      && Within(root, p)
    ensures ResolvePath(t, root, relative) == Failure(NOT_FOUND) <==>
      && IsAcceptable(root, relative)
      && Walk(t, [], root + Parts(relative), EVAL_LINKS, false) == Lost(NotExist)
  {
    PathsAreNames(t, root);
    if !IsBlank(relative) && '\0' !in relative && !IsAbs(relative) && relative[0] != '\\' {
      assert !("/" <= relative) && !("\\" <= relative);
      DotDotTestIsComplete(root, relative);
      if IsAcceptable(root, relative) {
        var full := root + Parts(relative);
        EvalOfAbsPath(t, full);
        var w := Walk(t, [], full, EVAL_LINKS, false);
        if w.Reached? {
          WalkStaysNamed(t, root, relative);
          InsideIsAncestry(root, w.path);
        }
      }
    } else if !IsBlank(relative) && '\0' !in relative && !IsAbs(relative) {
      assert "\\" <= relative;
    }
  }

  lemma {:induction false} CleanPartsWithoutNul(rooted: bool, stack: seq<string>, parts: seq<string>)
    requires FreeOf(stack, '\0') && FreeOf(parts, '\0')
    ensures FreeOf(CleanParts(rooted, stack, parts), '\0')
    decreases |parts|
  {
    if parts != [] {
      var c, rest := parts[0], parts[1..];
      if c == "" || c == "." {
        CleanPartsWithoutNul(rooted, stack, rest);
      } else if c == ".." {
        if stack != [] && stack[|stack| - 1] != ".." {
          CleanPartsWithoutNul(rooted, stack[..|stack| - 1], rest);
        } else if rooted {
          CleanPartsWithoutNul(rooted, stack, rest);
        } else {
          CleanPartsWithoutNul(rooted, stack + [".."], rest);
        }
      } else {
        CleanPartsWithoutNul(rooted, stack + [c], rest);
      }
    }
  }

  /** An acceptable argument is walked over proper file names only. */
  lemma {:induction false} AcceptableParts(t: Tree, root: Path, relative: string)
    requires WellFormed(t) && IsDirectory(t, root) && IsAcceptable(root, relative)
    ensures forall i :: 0 <= i < |Parts(relative)| ==> IsEntryName(Parts(relative)[i])
    ensures AllNames(root + Parts(relative)) && AreSteps(root + Parts(relative))
  {
    PathsAreNames(t, root);
    DotDotTestIsComplete(root, relative);
    SplitWithoutNul(relative);
    CleanPartsWithoutNul(false, [], Split(relative, "/"));
  }

  lemma {:induction false} WalkStaysNamed(t: Tree, root: Path, relative: string)
    requires WellFormed(t) && IsDirectory(t, root) && IsAcceptable(root, relative)
    ensures var w := Walk(t, [], root + Parts(relative), EVAL_LINKS, false);
      w.Reached? ==> IsReal(t, w.path) && AllNames(w.path)
  {
    AcceptableParts(t, root, relative);
    WalkArrives(t, [], root + Parts(relative), EVAL_LINKS, false);
    var w := Walk(t, [], root + Parts(relative), EVAL_LINKS, false);
    if w.Reached? { PathsAreNames(t, w.path); }
  }

  /** A resolved path is a real entry inside the workspace. */
  lemma {:induction false} ResolvedIsReal(t: Tree, root: Path, relative: string)
    requires WellFormed(t) && IsDirectory(t, root)
    ensures var r := ResolvePath(t, root, relative);
      r.Success? ==> IsReal(t, r.value) && Within(root, r.value)
  {
    var r := ResolvePath(t, root, relative);
    if r.Success? {
      ResolvePathAccepts(t, root, relative, r.value);
      WalkStaysNamed(t, root, relative);
    }
  }

  /** Why a path is refused, if it is not just missing: as an argument when it is blank or holds
      a NUL, and otherwise as a violation of the workspace: it is absolute, starts with a
      backslash, climbs out, or its walk leads outside or cannot be finished. */
  lemma {:induction false} ResolvePathRefuses(t: Tree, root: Path, relative: string)
    requires WellFormed(t) && IsDirectory(t, root)
    ensures var r, w := ResolvePath(t, root, relative), Walk(t, [], root + Parts(relative), EVAL_LINKS, false);
      && (r.Failure? && r.error.category == InvalidArguments <==> IsBlank(relative) || '\0' in relative)
      && (r.Failure? && r.error.category == WorkspaceViolation <==>
            && !IsBlank(relative) && '\0' !in relative
            && (|| relative[0] == '/' || relative[0] == '\\' || ".." in Parts(relative)
                || (root == [] && Parts(relative) != [])
                || (w.Reached? && !Within(root, w.path)) || (w.Lost? && w.error != NotExist)))
      && (r.Failure? ==> r.error.category != PermissionDenied && (r.error.category == ToolFailure <==> r.error == NOT_FOUND))
  {
    PathsAreNames(t, root);
    if !IsBlank(relative) && '\0' !in relative {
      assert "\\" <= relative <==> relative[0] == '\\';
      assert "/" <= relative <==> relative[0] == '/';
      if relative[0] != '/' && relative[0] != '\\' {
        DotDotTestIsComplete(root, relative);
        if IsAcceptable(root, relative) {
          EvalOfAbsPath(t, root + Parts(relative));
          var w := Walk(t, [], root + Parts(relative), EVAL_LINKS, false);
          if w.Reached? {
            WalkStaysNamed(t, root, relative);
            InsideIsAncestry(root, w.path);
          }
        }
      }
    }
  }

  /** A path that is found, or refused for another reason than that it is missing, is touched as
      it is resolved. */
  lemma {:induction false} TouchOfFound(t: Tree, root: Path, relative: string)
    requires ResolvePath(t, root, relative) != Failure(NOT_FOUND)
    ensures ResolveTouchPath(t, root, relative) == ResolvePath(t, root, relative)
  {
    hide ResolvePath;
  }

  /** A name in a real directory inside the workspace that is free, or taken by a link
      that leads nowhere. */
  ghost predicate IsNewName(t: Tree, root: Path, p: Path)
  {
    && root != [] && p != [] && IsEntryName(p[|p| - 1])
    && IsDirectory(t, Parent(p)) && Within(root, Parent(p))
    && (p in t ==> t[p].Link? && Walk(t, [], p, EVAL_LINKS, false) == Lost(NotExist))
  }

  /** What `resolveTouchPath` may answer. */
  ghost predicate IsTouchable(t: Tree, root: Path, p: Path)
  {
    (IsReal(t, p) && Within(root, p)) || IsNewName(t, root, p)
  }

  /** Walking to a name in a directory costs what walking to the directory costs. */
  lemma {:induction false} WalkLastStep(t: Tree, done: Path, rest: seq<string>, last: string, links: nat)
    requires IsName(last)
    ensures var w := Walk(t, done, rest, links, false);
      w.Reached? && IsDirectory(t, w.path) ==>
        exists left: nat :: left <= links &&
          Walk(t, done, rest + [last], links, false) == Walk(t, w.path, [last], left, false)
    decreases links, |rest|
  {
    var w := Walk(t, done, rest, links, false);
    if rest == [] {
      assert rest + [last] == [last];
      assert Walk(t, done, rest + [last], links, false) == Walk(t, done, [last], links, false);
    } else if w.Reached? && IsDirectory(t, w.path) {
      var c, more := rest[0], rest[1..];
      assert (rest + [last])[1..] == more + [last];
      if c == "" || c == "." {
        WalkLastStep(t, done, more, last, links);
      } else if c == ".." {
        WalkLastStep(t, Parent(done), more, last, links);
      } else if t[done + [c]].Directory? {
        WalkLastStep(t, done + [c], more, last, links);
      } else if t[done + [c]].Link? {
        var target := t[done + [c]].target;
        var next := if IsAbs(target) then [] else done;
        assert Split(target, "/") + more + [last] == Split(target, "/") + (more + [last]);
        WalkLastStep(t, next, Split(target, "/") + more, last, links - 1);
      }
    }
  }

  /** For a path that is not there, `resolveTouchPath` resolves the directory part and
      appends the last component to it. */
  lemma {:induction false} TouchOfMissing(t: Tree, root: Path, relative: string, front: Path, last: string)
    requires WellFormed(t) && IsDirectory(t, root)
    requires ResolvePath(t, root, relative) == Failure(NOT_FOUND) && Parts(relative) == front + [last]
    ensures AllNames(front) && IsName(last)
    ensures ResolveTouchPath(t, root, relative) ==
      match ResolvePath(t, root, RelPath(front))
      case Failure(e) => Failure(e)
      case Success(parent) =>
        if !IsDirectory(t, parent)
        then Failure(ToolError(InvalidArguments, "parent directory is not available"))
        else Success(parent + [last])
  {
    var parts := front + [last];
    var cleaned := RelPath(parts);
    assert IsAcceptable(root, relative) && root != [] by { ResolvePathAccepts(t, root, relative, []); }
    assert AllNames(parts) by {
      AcceptableParts(t, root, relative);
      assert forall i :: 0 <= i < |parts| ==> (root + parts)[|root| + i] == parts[i];
    }
    assert AllNames(front) by { assert forall i :: 0 <= i < |front| ==> parts[i] == front[i]; }
    assert IsName(last) by { assert parts[|front|] == last; }
    assert Clean(relative) == cleaned && cleaned != "." && !StartsWithDotDot(cleaned) by {
      NamesAreNotDot(parts);
      NamesDoNotStartWithDotDot(parts);
    }
    DirAndBase(front, last);
    var found := ResolvePath(t, root, RelPath(front));
    if found.Success? {
      ResolvedIsReal(t, root, RelPath(front));
      TouchBesideDirectory(t, root, found.value, last);
    }
  }

  lemma {:induction false} TouchBesideDirectory(t: Tree, root: Path, parent: Path, last: string)
    requires WellFormed(t) && IsReal(t, parent) && IsDirectory(t, root) && root != [] && Within(root, parent) && IsName(last)
    ensures Stat(t, parent) == Reached(parent)
    ensures Inside(AbsPath(root), JoinPath(AbsPath(parent), last))
    ensures Parts(JoinPath(AbsPath(parent), last)) == parent + [last]
  {
    WalkOfReal(t, parent, KERNEL_LINKS, false);
    PathsAreNames(t, parent);
    PathsAreNames(t, root);
    JoinBelow(parent, [last]);
    PartsOfAbsPath(parent + [last]);
    InsideIsAncestry(root, parent + [last]);
  }

  lemma {:induction false} NamesAreNotDot(parts: seq<string>)
    requires AllNames(parts) && parts != []
    ensures RelPath(parts) != "."
  {
    SplitOfJoin(parts, '/');
    SplitAtFirst(".", '/', "");
  }

  lemma {:induction false} NewTouchIsNewName(t: Tree, root: Path, relative: string)
    requires WellFormed(t) && IsDirectory(t, root)
    requires ResolvePath(t, root, relative) == Failure(NOT_FOUND)
    ensures var r := ResolveTouchPath(t, root, relative);
      r.Success? ==> IsNewName(t, root, r.value)
  {
    hide ResolvePath, ResolveTouchPath, Parts, RelPath, IsNewName, WellFormed;
    if ResolveTouchPath(t, root, relative).Success? {
      TouchHasParts(t, root, relative);
      var parts := Parts(relative);
      var front, last := parts[..|parts| - 1], parts[|parts| - 1];
      assert parts == front + [last];
      TouchOfMissing(t, root, relative, front, last);
      TouchBelow(t, root, relative, front, last, ResolvePath(t, root, RelPath(front)).value);
    }
  }

  /** The workspace itself is not touched as a new entry. */
  lemma {:induction false} TouchHasParts(t: Tree, root: Path, relative: string)
    requires WellFormed(t) && IsDirectory(t, root)
    requires ResolvePath(t, root, relative) == Failure(NOT_FOUND) && ResolveTouchPath(t, root, relative).Success?
    ensures Parts(relative) != []
  {
    ResolvePathAccepts(t, root, relative, []);
    assert RelPath([]) == ".";
  }

  lemma {:induction false} TouchBelow(t: Tree, root: Path, relative: string, front: Path, last: string, parent: Path)
    requires WellFormed(t) && IsDirectory(t, root) && AllNames(front)
    requires ResolvePath(t, root, relative) == Failure(NOT_FOUND) && Parts(relative) == front + [last]
    requires ResolvePath(t, root, RelPath(front)) == Success(parent) && IsDirectory(t, parent)
    ensures IsNewName(t, root, parent + [last])
  {
    hide ResolvePath, Parts, RelPath, Walk, WellFormed;
    var full := root + (front + [last]);
    assert root != [] && Walk(t, [], full, EVAL_LINKS, false) == Lost(NotExist) by {
      ResolvePathAccepts(t, root, relative, []);
    }
    assert IsEntryName(last) by {
      ResolvePathAccepts(t, root, relative, []);
      AcceptableParts(t, root, relative);
      assert (front + [last])[|front|] == last;
    }
    assert Walk(t, [], root + front, EVAL_LINKS, false) == Reached(parent) && Within(root, parent) by {
      ResolvePathAccepts(t, root, RelPath(front), parent);
      PartsOfRelPath(front);
    }
    assert root + front + [last] == full;
    LostBelow(t, root + front, parent, last);
    assert Parent(parent + [last]) == parent;
  }

  /** If a name cannot be found on the way through `front`, it is free in the directory
      `front` leads to, or a link that cannot be followed from there either. */
  lemma {:induction false} LostBelow(t: Tree, front: Path, parent: Path, last: string)
    requires WellFormed(t) && IsEntryName(last) && IsDirectory(t, parent)
    requires Walk(t, [], front, EVAL_LINKS, false) == Reached(parent)
    requires Walk(t, [], front + [last], EVAL_LINKS, false) == Lost(NotExist)
    ensures var p := parent + [last];
      p in t ==> t[p].Link? && Walk(t, [], p, EVAL_LINKS, false) == Lost(NotExist)
  {
    WalkLastStep(t, [], front, last, EVAL_LINKS);
    var left: nat :| left <= EVAL_LINKS &&
      Walk(t, [], front + [last], EVAL_LINKS, false) == Walk(t, parent, [last], left, false);
    MoreLinks(t, parent, [last], left, EVAL_LINKS, false);
    assert [] + parent == parent;
    WalkAlong(t, [], parent, [last], EVAL_LINKS, false);
  }

  lemma {:induction false} ResolvedTouchIsTouchable(t: Tree, root: Path, relative: string)
    requires WellFormed(t) && IsDirectory(t, root)
    ensures var r := ResolveTouchPath(t, root, relative);
      r.Success? ==> IsTouchable(t, root, r.value)
  {
    var r := ResolveTouchPath(t, root, relative);
    if r.Success? {
      var found := ResolvePath(t, root, relative);
      if found.Success? {
        ResolvedIsReal(t, root, relative);
      } else {
        NewTouchIsNewName(t, root, relative);
      }
    }
  }

  // ----- resolving and relativising undo each other

  lemma {:induction false} JoinWithoutNul(parts: seq<string>)
    requires FreeOf(parts, '\0')
    ensures '\0' !in Join(parts, "/")
  {
    if |parts| > 1 {
      JoinWithoutNul(parts[1..]);
    }
  }

  /** The relative form of a real entry inside the workspace resolves back to the entry,
      unless it is all white space or starts with a backslash, which `resolvePath` rejects. */
  lemma {:induction false} RelativePathResolvesBack(t: Tree, root: Path, p: Path)
    requires WellFormed(t) && IsDirectory(t, root) && IsReal(t, p) && Within(root, p)
    ensures var relative := RelativePath(root, p);
      ResolvePath(t, root, relative) == Success(p) <==> !IsBlank(relative) && relative[0] != '\\'
  {
    var below := p[|root|..];
    assert p == root + below;
    RelBelow(root, below);
    PathsAreNames(t, p);
    assert forall i :: 0 <= i < |below| ==> p[|root| + i] == below[i];
    var relative := RelPath(below);
    PartsOfRelPath(below);
    if !IsBlank(relative) && relative[0] != '\\' {
      assert '\0' !in relative by { if below != [] { JoinWithoutNul(below); } }
      WalkOfReal(t, p, EVAL_LINKS, false);
      ResolvePathAccepts(t, root, relative, p);
    } else if !IsBlank(relative) {
      ResolvePathAccepts(t, root, relative, p);
    }
  }

  /** Resolving the relative form of a resolved path changes nothing more. */
  lemma {:induction false} ResolveIsStable(t: Tree, root: Path, relative: string)
    requires WellFormed(t) && IsDirectory(t, root) && ResolvePath(t, root, relative).Success?
    ensures var p := ResolvePath(t, root, relative).value; var again := RelativePath(root, p);
      ResolvePath(t, root, again) == Success(p) <==> !IsBlank(again) && again[0] != '\\'
  {
    ResolvedIsReal(t, root, relative);
    RelativePathResolvesBack(t, root, ResolvePath(t, root, relative).value);
  }

  /** The components of the workspace argument, made absolute. */
  function WorkspaceParts(cwd: Path, workspace: string): Path
  {
    if IsAbs(workspace) then Parts(workspace) else Parts(AbsPath(cwd) + "/" + workspace)
  }

  /** The server starts exactly if its argument is not blank and the walk of it, made absolute,
      ends at a directory; its workspace is where the walk ends, a directory that is reached
      without any link. */
  lemma {:induction false} CanonicalWorkspaceIsReal(t: Tree, cwd: Path, workspace: string)
    requires WellFormed(t)
    ensures var r, w := CanonicalWorkspace(t, cwd, workspace), Walk(t, [], WorkspaceParts(cwd, workspace), EVAL_LINKS, false);
      && (r.Success? <==> !IsBlank(workspace) && w.Reached? && IsDirectory(t, w.path))
      && (r.Success? ==> r.value == w.path && forall k :: 0 <= k < |r.value| ==> IsDirectory(t, r.value[..k]))
  {
    var full := if IsAbs(workspace) then workspace else AbsPath(cwd) + "/" + workspace;
    assert full[0] == '/';
    PartsAreClean(full);
    EvalOfAbsPath(t, Parts(full));
    var r := CanonicalWorkspace(t, cwd, workspace);
    if r.Success? {
      forall k | 0 <= k < |r.value| ensures IsDirectory(t, r.value[..k]) {
        AncestorsAreDirectories(t, r.value, k);
      }
    }
  }
}
