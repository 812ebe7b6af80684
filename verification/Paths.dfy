/** Slash-separated paths: the lexical functions of Go's `path/filepath` that the
    workspace boundary is built from, as operations on component lists. */
module Paths {
  import opened Strings

  /** The components of an absolute path, outermost first; the root is []. */
  type Path = seq<string>

  /** A component that survives cleaning and can name a directory entry. */
  predicate IsName(c: string)
  {
    c != "" && c != "." && c != ".." && '/' !in c
  }

  ghost predicate AllNames(p: Path)
  {
    forall i :: 0 <= i < |p| ==> IsName(p[i])
  }

  /** `filepath.Clean` over the components of a path, with `stack` already cleaned. */
  function CleanParts(rooted: bool, stack: seq<string>, parts: seq<string>): (r: seq<string>)
    decreases |parts|
  {
    if parts == [] then stack
    else
      var c, rest := parts[0], parts[1..];
      if c == "" || c == "." then CleanParts(rooted, stack, rest)
      else if c == ".." then
        if stack != [] && stack[|stack| - 1] != ".." then CleanParts(rooted, stack[..|stack| - 1], rest)
        else if rooted then CleanParts(rooted, stack, rest)
        else CleanParts(rooted, stack + [".."], rest)
      else CleanParts(rooted, stack + [c], rest)
  }

  predicate IsAbs(path: string)
  {
    path != "" && path[0] == '/'
  }

  /** The cleaned components of a path. */
  function Parts(path: string): seq<string>
  {
    CleanParts(IsAbs(path), [], Split(path, "/"))
  }

  /** `filepath.Clean`. */
  function Clean(path: string): string
  {
    if IsAbs(path) then AbsPath(Parts(path)) else RelPath(Parts(path))
  }

  function AbsPath(p: Path): string
  {
    "/" + Join(p, "/")
  }

  /** A cleaned relative path; the empty list is written ".". */
  function RelPath(parts: seq<string>): string
  {
    if parts == [] then "." else Join(parts, "/")
  }

  /** `filepath.Join` of two elements. */
  function JoinPath(a: string, b: string): string
  {
    if a != "" then Clean(a + "/" + b) else if b != "" then Clean(b) else ""
  }

  /** `filepath.Dir`: everything up to the last slash, cleaned. */
  function Dir(path: string): string
  {
    var parts := Split(path, "/");
    if |parts| == 1 then "." else Clean(Join(parts[..|parts| - 1], "/") + "/")
  }

  /** `filepath.Base`: the last component once trailing slashes are gone. */
  function Base(path: string): string
    decreases |path|
  {
    if path == "" then "."
    else if path[|path| - 1] == '/' then
      if |path| == 1 then "/" else Base(path[..|path| - 1])
    else
      var parts := Split(path, "/");
      parts[|parts| - 1]
  }

  /** `filepath.Rel` between two canonical absolute paths. */
  function Rel(base: Path, target: Path): string
  {
    var k := CommonPrefix(base, target);
    RelPath(seq(|base| - k, _ => "..") + target[k..])
  }

  function CommonPrefix(a: Path, b: Path): (k: nat)
    ensures k <= |a| && k <= |b| && a[..k] == b[..k]
    ensures k < |a| && k < |b| ==> a[k] != b[k]
  {
    if a != [] && b != [] && a[0] == b[0] then 1 + CommonPrefix(a[1..], b[1..]) else 0
  }

  // ----- what cleaning leaves behind

  /** The shape of a cleaned component list: names, after leading ".."s if the path is relative. */
  ghost predicate IsClean(rooted: bool, parts: seq<string>)
  {
    && (forall i :: 0 <= i < |parts| ==> IsName(parts[i]) || (!rooted && parts[i] == ".."))
    && (forall i :: 0 < i < |parts| && parts[i] == ".." ==> parts[i - 1] == "..")
  }

  lemma {:induction false} CleanPartsIsClean(rooted: bool, stack: seq<string>, parts: seq<string>)
    requires IsClean(rooted, stack) && FreeOf(parts, '/')
    ensures IsClean(rooted, CleanParts(rooted, stack, parts))
    decreases |parts|
  {
    if parts != [] {
      var c, rest := parts[0], parts[1..];
      if c == "" || c == "." {
        CleanPartsIsClean(rooted, stack, rest);
      } else if c == ".." {
        if stack != [] && stack[|stack| - 1] != ".." {
          CleanPartsIsClean(rooted, stack[..|stack| - 1], rest);
        } else if rooted {
          CleanPartsIsClean(rooted, stack, rest);
        } else {
          CleanPartsIsClean(rooted, stack + [".."], rest);
        }
      } else {
        CleanPartsIsClean(rooted, stack + [c], rest);
      }
    }
  }

  lemma {:induction false} PartsAreClean(path: string)
    ensures IsClean(IsAbs(path), Parts(path))
  {
    SplitIsFree(path, '/');
    CleanPartsIsClean(IsAbs(path), [], Split(path, "/"));
  }

  /** In a clean list a ".." anywhere means a ".." in front. */
  lemma {:induction false} DotDotLeads(parts: seq<string>, i: nat)
    requires IsClean(false, parts) && i < |parts| && parts[i] == ".."
    ensures parts[0] == ".."
  {
    if i > 0 {
      DotDotLeads(parts, i - 1);
    }
  }

  lemma {:induction false} CleanPartsConcat(rooted: bool, stack: seq<string>, a: seq<string>, b: seq<string>)
    ensures CleanParts(rooted, stack, a + b) == CleanParts(rooted, CleanParts(rooted, stack, a), b)
    decreases |a|
  {
    if a == [] {
      assert a + b == b;
    } else {
      assert (a + b)[1..] == a[1..] + b;
      var c := a[0];
      if c == "" || c == "." {
        CleanPartsConcat(rooted, stack, a[1..], b);
      } else if c == ".." {
        if stack != [] && stack[|stack| - 1] != ".." {
          CleanPartsConcat(rooted, stack[..|stack| - 1], a[1..], b);
        } else if rooted {
          CleanPartsConcat(rooted, stack, a[1..], b);
        } else {
          CleanPartsConcat(rooted, stack + [".."], a[1..], b);
        }
      } else {
        CleanPartsConcat(rooted, stack + [c], a[1..], b);
      }
    }
  }

  /** Names are pushed as they are. */
  lemma {:induction false} CleanPartsOfNames(rooted: bool, stack: seq<string>, names: seq<string>)
    requires AllNames(names)
    ensures CleanParts(rooted, stack, names) == stack + names
    decreases |names|
  {
    if names != [] {
      CleanPartsOfNames(rooted, stack + [names[0]], names[1..]);
      assert stack + [names[0]] + names[1..] == stack + names;
    } else {
      assert stack + names == stack;
    }
  }

  /** A clean relative list is its own cleaning. */
  lemma {:induction false} CleanPartsOfClean(stack: seq<string>, parts: seq<string>)
    requires IsClean(false, stack + parts)
    ensures CleanParts(false, stack, parts) == stack + parts
    decreases |parts|
  {
    if parts != [] {
      var c := parts[0];
      assert (stack + parts)[|stack|] == c;
      if c == ".." && stack != [] {
        assert (stack + parts)[|stack| - 1] == "..";
        assert stack[|stack| - 1] == "..";
      }
      assert stack + [c] + parts[1..] == stack + parts;
      CleanPartsOfClean(stack + [c], parts[1..]);
    } else {
      assert stack + parts == stack;
    }
  }

  // ----- what cleaning means

  /** Where components lead from a directory when no link is on the way. */
  function Lead(base: Path, parts: seq<string>): Path
    decreases |parts|
  {
    if parts == [] then base
    else if parts[0] == "" || parts[0] == "." then Lead(base, parts[1..])
    else if parts[0] == ".." then Lead(if base == [] then [] else base[..|base| - 1], parts[1..])
    else Lead(base + [parts[0]], parts[1..])
  }

  lemma {:induction false} LeadConcat(base: Path, a: seq<string>, b: seq<string>)
    ensures Lead(base, a + b) == Lead(Lead(base, a), b)
    decreases |a|
  {
    if a == [] {
      assert a + b == b;
    } else {
      assert (a + b)[1..] == a[1..] + b;
      var next := if a[0] == "" || a[0] == "." then base
                  else if a[0] == ".." then (if base == [] then [] else base[..|base| - 1]) else base + [a[0]];
      LeadConcat(next, a[1..], b);
    }
  }

  lemma {:induction false} CleanPartsLead(rooted: bool, base: Path, stack: seq<string>, parts: seq<string>)
    requires IsClean(rooted, stack) && FreeOf(parts, '/') && (rooted ==> base == [])
    ensures Lead(base, CleanParts(rooted, stack, parts)) == Lead(Lead(base, stack), parts)
    decreases |parts|
  {
    if parts != [] {
      var c, rest := parts[0], parts[1..];
      if c == "" || c == "." {
        CleanPartsLead(rooted, base, stack, rest);
      } else if c == ".." && stack != [] && stack[|stack| - 1] != ".." {
        var front, last := stack[..|stack| - 1], stack[|stack| - 1];
        assert stack == front + [last];
        LeadConcat(base, front, [last]);
        LeadOfOne(Lead(base, front), last);
        CleanPartsLead(rooted, base, front, rest);
      } else if c == ".." && rooted {
        assert stack == [];
        CleanPartsLead(rooted, base, stack, rest);
      } else {
        LeadConcat(base, stack, [c]);
        LeadOfOne(Lead(base, stack), c);
        CleanPartsLead(rooted, base, stack + [c], rest);
      }
    }
  }

  lemma {:induction false} LeadOfOne(base: Path, c: string)
    ensures Lead(base, [c]) == if c == "" || c == "." then base
      else if c == ".." then (if base == [] then [] else base[..|base| - 1]) else base + [c]
  {
    assert [c][1..] == [];
  }

  /** A cleaned path leads, from every directory, where the path itself leads when no link is on
      the way; an absolute one is followed from the root. */
  lemma {:induction false} CleanKeepsMeaning(path: string, base: Path)
    requires IsAbs(path) ==> base == []
    ensures Lead(base, Parts(path)) == Lead(base, Split(path, "/"))
  {
    SplitIsFree(path, '/');
    CleanPartsLead(IsAbs(path), base, [], Split(path, "/"));
  }

  // ----- strings and component lists determine each other

  lemma {:induction false} SplitOfAbsPath(p: Path)
    requires AllNames(p)
    ensures Split(AbsPath(p), "/") == [""] + if p == [] then [""] else p
  {
    SplitAtFirst("", '/', Join(p, "/"));
    assert "" + ['/'] + Join(p, "/") == AbsPath(p);
    if p != [] {
      SplitOfJoin(p, '/');
    } else {
      SplitAtFirst("", '/', "");
    }
  }

  lemma {:induction false} PartsOfAbsPath(p: Path)
    requires AllNames(p)
    ensures IsAbs(AbsPath(p)) && Parts(AbsPath(p)) == p && Clean(AbsPath(p)) == AbsPath(p)
  {
    SplitOfAbsPath(p);
    CleanPartsConcat(true, [], [""], if p == [] then [""] else p);
    CleanPartsOfNames(true, [], p);
  }

  lemma {:induction false} AbsPathInjective(p: Path, q: Path)
    requires AllNames(p) && AllNames(q) && AbsPath(p) == AbsPath(q)
    ensures p == q
  {
    PartsOfAbsPath(p);
    PartsOfAbsPath(q);
  }

  /** A clean relative list can be read back from its text. */
  lemma {:induction false} PartsOfRelPath(parts: seq<string>)
    requires IsClean(false, parts)
    ensures !IsAbs(RelPath(parts)) && Parts(RelPath(parts)) == parts && Clean(RelPath(parts)) == RelPath(parts)
  {
    if parts == [] {
      SplitAtFirst(".", '/', "");
      assert Split(".", "/") == ["."];
    } else {
      assert [] + parts == parts;
      CleanPartsOfClean([], parts);
      assert parts[0] != "" && parts[0][0] in parts[0];
      assert FreeOf(parts, '/');
      SplitOfJoin(parts, '/');
      assert Join(parts, "/")[0] == parts[0][0];
    }
  }

  /** Cleaning twice is cleaning once. */
  lemma {:induction false} CleanIdempotent(path: string)
    ensures Clean(Clean(path)) == Clean(path)
  {
    PartsAreClean(path);
    if IsAbs(path) {
      PartsOfAbsPath(Parts(path));
    } else {
      PartsOfRelPath(Parts(path));
    }
  }

  /** Joining a cleaned relative path without ".." below a directory appends its components. */
  lemma {:induction false} JoinBelow(base: Path, parts: seq<string>)
    requires AllNames(base) && AllNames(parts)
    ensures JoinPath(AbsPath(base), RelPath(parts)) == AbsPath(base + parts)
  {
    var tail := if parts == [] then ["."] else parts;
    var path := AbsPath(base) + "/" + RelPath(parts);
    assert Split(RelPath(parts), "/") == tail by {
      if parts == [] { SplitAtFirst(".", '/', ""); } else { SplitOfJoin(parts, '/'); }
    }
    SplitOfConcat(AbsPath(base), '/', RelPath(parts));
    PartsOfAbsPath(base);
    CleanPartsConcat(true, [], Split(AbsPath(base), "/"), tail);
    CleanPartsOfNames(true, base, parts);
    assert CleanParts(true, base, tail) == base + parts;
    assert Parts(path) == base + parts;
  }

  /** `Dir` and `Base` take a cleaned relative path apart at its last component. */
  lemma {:induction false} DirAndBase(front: seq<string>, last: string)
    requires AllNames(front) && IsName(last)
    ensures Dir(RelPath(front + [last])) == RelPath(front)
    ensures Base(RelPath(front + [last])) == last
  {
    var p := RelPath(front + [last]);
    SplitOfJoin(front + [last], '/');
    assert last[|last| - 1] in last;
    if front == [] {
      assert p == last;
    } else {
      JoinOfConcat(front, [last], "/");
      assert p == Join(front, "/") + "/" + last;
      assert (front + [last])[..|front|] == front;
      CleanWithTrailingSlash(front);
    }
  }

  lemma {:induction false} CleanWithTrailingSlash(front: seq<string>)
    requires AllNames(front) && front != []
    ensures Clean(Join(front, "/") + "/") == RelPath(front)
  {
    var d := Join(front, "/") + "/";
    assert d == Join(front, "/") + ['/'] + "";
    SplitOfConcat(Join(front, "/"), '/', "");
    SplitOfJoin(front, '/');
    SplitAtFirst("", '/', "");
    assert Split(d, "/") == front + [""];
    CleanPartsConcat(false, [], front, [""]);
    CleanPartsOfNames(false, [], front);
    assert [] + front == front;
    assert front[0][0] in front[0];
    assert d[0] == front[0][0];
  }

  lemma {:induction false} RelBelow(base: Path, below: Path)
    ensures Rel(base, base + below) == RelPath(below)
  {
    var k := CommonPrefix(base, base + below);
    assert forall i :: 0 <= i < |base| ==> (base + below)[i] == base[i];
    assert seq(0, _ => "..") + (base + below)[k..] == below;
  }
}
