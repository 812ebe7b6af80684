/** The tool handlers as they run: step by step on a disk that they update in place. */
module FileServer {
  import opened Results
  import opened Paths
  import opened Disk
  import opened Workspace
  import opened FileTools

  /** What a handler answers when its plan succeeds or fails. */
  function Answer(plan: Result<Edit, ToolError>, output: string): (answer: Result<string, ToolError>)
    ensures answer.Success? <==> plan.Success?
    ensures if answer.Success? then answer.value == output else plan == Failure(answer.error)
  {
    if plan.Success? then Success(output) else Failure(plan.error)
  }

  function FailureOf(plan: Result<Edit, ToolError>): Option<ToolError>
  {
    if plan.Success? then None else Some(plan.error)
  }

  class Server {
    const root: Path
    const limits: Limits
    var tree: Tree

    ghost predicate Valid()
      reads this
    {
      IsServable(tree, root)
    }

    constructor (root: Path, limits: Limits, tree: Tree)
      requires IsServable(tree, root)
      ensures Valid() && this.root == root && this.limits == limits && this.tree == tree
    {
      this.root, this.limits, this.tree := root, limits, tree;
    }

    /** `os.OpenFile` for writing, with `O_CREATE`: the file it opened, if it opened one. */
    method OpenFile(p: Path, truncate: bool) returns (handle: Option<Path>)
      modifies this`tree
      ensures match OpenTarget(old(tree), p)
        case Lost(_) => handle == None && tree == old(tree)
        case Reached(q) =>
          if IsDirectory(old(tree), q) then (handle == None && tree == old(tree))
          else
            (&& handle == Some(q) && q in tree
             && tree == if truncate || q !in old(tree) then old(tree)[q := File("")] else old(tree))
    {
      match OpenTarget(tree, p)
      case Lost(_) =>
        handle := None;
      case Reached(q) =>
        if IsDirectory(tree, q) {
          handle := None;
        } else {
          if truncate || q !in tree {
            tree := tree[q := File("")];
          }
          handle := Some(q);
        }
    }

    /** `readFile`: fills a buffer that has room for one byte more than may be given. */
    method ReadFile(relative: string, limit: int) returns (r: Result<(string, bool), ToolError>)
      ensures r == ReadText(tree, root, limits, relative, limit)
    {
      var path := ResolvePath(tree, root, relative);
      if path.Failure? {
        return Failure(path.error);
      }
      if path.value !in tree {
        return Failure(ToolError(ToolFailure, "file could not be inspected"));
      }
      var node := tree[path.value];
      if node.Directory? {
        return Failure(ToolError(InvalidArguments, "path is a directory, not a file"));
      }
      if node.Link? {
        return Failure(ToolError(InvalidArguments, "path is not a regular file"));
      }
      var allowed := limit;
      if limit <= 0 || limit > limits.maxRead {
        allowed := limits.maxRead;
      }
      var excerpt := FillBuffer(node.content, allowed);
      return Success(excerpt);
    }

    /** The buffer of `readFile`; filling it is `io.ReadFull`. */
    static method FillBuffer(content: string, limit: nat) returns (r: (string, bool))
      ensures r == Excerpt(content, limit)
    {
      var buffer := new char[limit + 1](_ => '\0');
      var count := 0;
      while count < buffer.Length && count < |content|
        invariant 0 <= count <= buffer.Length && count <= |content| && buffer[..count] == content[..count]
      {
        buffer[count] := content[count];
        count := count + 1;
      }
      var truncated := false;
      if count > limit {
        count := limit;
        truncated := true;
        assert buffer[..limit] == content[..limit];
      } else {
        assert content[..count] == content;
      }
      return (buffer[..count], truncated);
    }

    method RunTouch(path: string) returns (r: Result<string, ToolError>)
      modifies this`tree
      ensures tree == After(old(tree), PlanTouch(old(tree), root, path))
      ensures r == Answer(PlanTouch(old(tree), root, path), path)
    {
      var p := ResolveTouchPath(tree, root, path);
      if p.Failure? {
        return Failure(p.error);
      }
      var file := OpenFile(p.value, false);
      if file == None {
        return Failure(ToolError(PermissionDenied, "file could not be touched"));
      }
      return Success(path);
    }

    method RunMkdir(path: string) returns (r: Result<string, ToolError>)
      modifies this`tree
      ensures tree == After(old(tree), PlanMkdir(old(tree), root, path))
      ensures r == Answer(PlanMkdir(old(tree), root, path), path)
    {
      var p := ResolveTouchPath(tree, root, path);
      if p.Failure? {
        return Failure(p.error);
      }
      if p.value in tree {
        return Failure(ToolError(InvalidArguments, "path already exists"));
      }
      tree := tree[p.value := Directory];
      return Success(path);
    }

    method RunWriteFile(path: string, content: string, append: bool, overwrite: bool)
      returns (r: Result<string, ToolError>)
      requires Valid()
      modifies this`tree
      ensures tree == After(old(tree), PlanWrite(old(tree), root, limits, path, content, append, overwrite))
      ensures r == Answer(PlanWrite(old(tree), root, limits, path, content, append, overwrite), path)
    {
      if |content| > limits.maxWrite {
        return Failure(ToolError(InvalidArguments, "content exceeds the allowed size"));
      }
      if append && overwrite {
        return Failure(ToolError(InvalidArguments, "set only one of overwrite or append"));
      }
      var p := ResolveTouchPath(tree, root, path);
      if p.Failure? {
        return Failure(p.error);
      }
      ResolvedTouchIsTouchable(tree, root, path);
      var failure := WriteContent(p.value, content, append, overwrite);
      return if failure.Some? then Failure(failure.value) else Success(path);
    }

    /** The second half of `runWriteFile`. */
    method WriteContent(p: Path, content: string, append: bool, overwrite: bool) returns (failure: Option<ToolError>)
      requires Valid() && IsTouchable(tree, root, p) && !(append && overwrite)
      modifies this`tree
      ensures tree == After(old(tree), WriteTo(old(tree), p, content, append, overwrite))
      ensures failure == FailureOf(WriteTo(old(tree), p, content, append, overwrite))
    {
      if p in tree {
        if tree[p].Directory? {
          return Some(ToolError(InvalidArguments, "path is a directory, not a file"));
        }
        if !tree[p].File? {
          return Some(ToolError(InvalidArguments, "path is not a regular file"));
        }
        if !append && !overwrite {
          return Some(ToolError(InvalidArguments, "file exists; set overwrite or append explicitly"));
        }
      }
      OpenOfTouchable(tree, root, p);
      var file := OpenFile(p, !append);
      if file == None {
        return Some(ToolError(ToolFailure, "file could not be written"));
      }
      assert "" + content == content;
      tree := tree[p := File(tree[p].content + content)];
      return None;
    }

    method RunCopy(source: string, destination: string, overwrite: bool) returns (r: Result<string, ToolError>)
      requires Valid()
      modifies this`tree
      ensures tree == After(old(tree), PlanCopy(old(tree), root, limits, source, destination, overwrite))
      ensures r == Answer(PlanCopy(old(tree), root, limits, source, destination, overwrite), destination)
    {
      var src := ResolvePath(tree, root, source);
      if src.Failure? {
        return Failure(src.error);
      }
      if src.value !in tree || !tree[src.value].File? || |tree[src.value].content| > limits.maxCopy {
        return Failure(ToolError(InvalidArguments, "source must be a regular file no larger than 1 MiB"));
      }
      var dst := ResolveTouchPath(tree, root, destination);
      if dst.Failure? {
        return Failure(dst.error);
      }
      ResolvedTouchIsTouchable(tree, root, destination);
      var failure := CopyFile(src.value, dst.value, overwrite);
      return if failure.Some? then Failure(failure.value) else Success(destination);
    }

    /** The second half of `runCopy`. The source is read after the destination has been
        truncated, so it matters that the two are never the same file. */
    method CopyFile(src: Path, dst: Path, overwrite: bool) returns (failure: Option<ToolError>)
      requires Valid() && src in tree && tree[src].File? && IsTouchable(tree, root, dst)
      modifies this`tree
      ensures tree == After(old(tree), CopyTo(old(tree), src, dst, overwrite))
      ensures failure == FailureOf(CopyTo(old(tree), src, dst, overwrite))
    {
      if src == dst {
        return Some(ToolError(InvalidArguments, "source and destination must differ"));
      }
      if Stat(tree, dst).Reached? && !overwrite {
        return Some(ToolError(InvalidArguments, "destination already exists; set overwrite to replace it"));
      }
      OpenOfTouchable(tree, root, dst);
      var output := OpenFile(dst, true);
      if output == None {
        return Some(ToolError(ToolFailure, "destination could not be written"));
      }
      assert output.value != src;
      tree := tree[output.value := File(tree[src].content)];
      return None;
    }

    method RunMove(source: string, destination: string, overwrite: bool) returns (r: Result<string, ToolError>)
      requires Valid()
      modifies this`tree
      ensures tree == After(old(tree), PlanMove(old(tree), root, source, destination, overwrite))
      ensures r == Answer(PlanMove(old(tree), root, source, destination, overwrite), destination)
    {
      var src := ResolvePath(tree, root, source);
      if src.Failure? || src.value == root {
        return Failure(ToolError(WorkspaceViolation, "source path is not allowed"));
      }
      ResolvedIsReal(tree, root, source);
      var dst := ResolveTouchPath(tree, root, destination);
      if dst.Failure? {
        return Failure(dst.error);
      }
      if dst.value in tree && !overwrite {
        return Failure(ToolError(InvalidArguments, "destination already exists; set overwrite to replace it"));
      }
      var rename := PlanRename(tree, src.value, dst.value);
      if rename.Failure? {
        return Failure(rename.error);
      }
      tree := Apply(tree, rename.value);
      return Success(destination);
    }

    method RunRemove(path: string) returns (r: Result<string, ToolError>)
      modifies this`tree
      ensures tree == After(old(tree), PlanRemove(old(tree), root, path))
      ensures r == Answer(PlanRemove(old(tree), root, path), path)
    {
      var p := ResolvePath(tree, root, path);
      if p.Failure? || p.value == root {
        return Failure(ToolError(WorkspaceViolation, "path is not allowed"));
      }
      if p.value !in tree || !tree[p.value].File? {
        return Failure(ToolError(InvalidArguments, "path is not a regular file"));
      }
      tree := tree - {p.value};
      return Success(path);
    }

    method RunRemoveDirectory(path: string) returns (r: Result<string, ToolError>)
      modifies this`tree
      ensures tree == After(old(tree), PlanRemoveDirectory(old(tree), root, path))
      ensures r == Answer(PlanRemoveDirectory(old(tree), root, path), path)
    {
      var p := ResolvePath(tree, root, path);
      if p.Failure? || p.value == root {
        return Failure(ToolError(WorkspaceViolation, "path is not allowed"));
      }
      if !IsDirectory(tree, p.value) {
        return Failure(ToolError(InvalidArguments, "path is not a directory"));
      }
      if HasChild(tree, p.value) {
        return Failure(ToolError(InvalidArguments, "directory must be empty"));
      }
      tree := tree - {p.value};
      return Success(path);
    }

    method Handle(call: Call) returns (r: Result<string, ToolError>)
      requires Valid()
      modifies this`tree
      ensures Valid()
      ensures tree == After(old(tree), Plan(old(tree), root, limits, call))
      ensures r == Answer(Plan(old(tree), root, limits, call), Destination(call))
      ensures Outside(tree, root) == Outside(old(tree), root)
        <==> !LeavesThroughLink(old(tree), root, limits, call)
    {
      CallIsConfined(tree, root, limits, call);
      match call
      case Touch(path) => r := RunTouch(path);
      case Mkdir(path) => r := RunMkdir(path);
      case WriteFile(path, content, append, overwrite) => r := RunWriteFile(path, content, append, overwrite);
      case Copy(source, destination, overwrite) => r := RunCopy(source, destination, overwrite);
      case Move(source, destination, overwrite) => r := RunMove(source, destination, overwrite);
      case Remove(path) => r := RunRemove(path);
      case RemoveDirectory(path) => r := RunRemoveDirectory(path);
    }

    /** A whole session of calls: each is answered on the disk that the calls before it have
        left, and what is outside the workspace stays as it was exactly when none leaves. */
    method HandleAll(calls: seq<Call>) returns (answers: seq<Result<string, ToolError>>)
      requires Valid()
      modifies this`tree
      ensures Valid() && |answers| == |calls|
      ensures tree == AfterAll(old(tree), root, limits, calls)
      ensures forall i :: 0 <= i < |calls| ==>
        answers[i] == Answer(Plan(AfterAll(old(tree), root, limits, calls[..i]), root, limits, calls[i]), Destination(calls[i]))
      ensures Outside(tree, root) == Outside(old(tree), root) <==> NeverLeaves(old(tree), root, limits, calls)
    {
      hide Plan, NeverLeaves, LeavesThroughLink, Outside, AfterAll;
      answers := [];
      SessionIsConfined(tree, root, limits, calls);
      assert calls[..0] == [] && AfterAll(tree, root, limits, []) == tree by { NothingDone(tree, root, limits); }
      for i := 0 to |calls|
        invariant Valid() && |answers| == i
        invariant tree == AfterAll(old(tree), root, limits, calls[..i])
        invariant forall k :: 0 <= k < i ==> IsAnswered(old(tree), calls, k, answers[k])
      {
        AfterOneMore(tree, old(tree), root, limits, calls[..i], calls[i]);
        assert calls[..i + 1] == calls[..i] + [calls[i]];
        var answer := Handle(calls[i]);
        answers := answers + [answer];
      }
      assert calls[..|calls|] == calls;
      assert forall k :: 0 <= k < |calls| ==> IsAnswered(old(tree), calls, k, answers[k]);
    }

    ghost predicate IsAnswered(t: Tree, calls: seq<Call>, k: nat, answer: Result<string, ToolError>)
      requires k < |calls|
    {
      answer == Answer(Plan(AfterAll(t, root, limits, calls[..k]), root, limits, calls[k]), Destination(calls[k]))
    }
  }

  lemma {:induction false} NothingDone(t: Tree, root: Path, limits: Limits)
    ensures AfterAll(t, root, limits, []) == t
  {
  }

  lemma {:induction false} AfterOneMore(u: Tree, t: Tree, root: Path, limits: Limits, calls: seq<Call>, call: Call)
    requires u == AfterAll(t, root, limits, calls)
    ensures AfterAll(t, root, limits, calls + [call]) == After(u, Plan(u, root, limits, call))
    decreases |calls|
  {
    if calls == [] {
      assert (calls + [call])[1..] == [];
    } else {
      AfterOneMore(u, After(t, Plan(t, root, limits, calls[0])), root, limits, calls[1..], call);
      assert (calls + [call])[1..] == calls[1..] + [call];
    }
  }
}
