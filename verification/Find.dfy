/** `find` (internal/mcpserver/tools.go): a cut-off walk over the entries below a directory. */
module Find {
  import opened Results
  import opened Strings
  import opened Paths
  import opened Disk
  import opened Workspace
  import opened FileTools

  datatype Found = Found(lines: seq<string>, truncated: bool, files: nat, directories: nat)

  ghost predicate AreEntries(t: Tree, visits: seq<Path>)
  {
    forall i :: 0 <= i < |visits| ==> visits[i] in t && visits[i] != []
  }

  ghost predicate AreBelow(t: Tree, dir: Path, visits: seq<Path>)
  {
    forall i :: 0 <= i < |visits| ==> visits[i] in t && dir < visits[i]
  }

  /** What `filepath.WalkDir(dir)` visits after `dir` itself: each entry below it, once. */
  ghost predicate IsWalkOf(t: Tree, dir: Path, visits: seq<Path>)
  {
    && AreBelow(t, dir, visits)
    && (forall i, j :: 0 <= i < j < |visits| ==> visits[i] != visits[j])
    && (forall p :: p in t && dir < p ==> p in visits)
  }

  /** Whether a name matches, or why that cannot be told: the glob pattern is malformed, or the
      mode of matching is unknown. */
  type Matcher = string -> Result<bool, ToolError>

  /** An entry that is looked at, that is, not a link, whose name matches. */
  predicate IsHit(t: Tree, matcher: Matcher, p: Path)
    requires p in t && p != []
  {
    !t[p].Link? && matcher(p[|p| - 1]) == Success(true)
  }

  predicate IsBadMatch(t: Tree, matcher: Matcher, p: Path)
    requires p in t && p != []
  {
    !t[p].Link? && matcher(p[|p| - 1]).Failure?
  }

  /** The matching entries, in the order of the walk. */
  function Hits(t: Tree, matcher: Matcher, visits: seq<Path>): (r: seq<Path>)
    requires AreEntries(t, visits)
    ensures forall i :: 0 <= i < |r| ==> r[i] in visits && IsHit(t, matcher, r[i])
  {
    if visits == [] then []
    else
      var before := Hits(t, matcher, visits[..|visits| - 1]);
      var last := visits[|visits| - 1];
      if IsHit(t, matcher, last) then before + [last] else before
  }

  /** How an entry is reported: exactly a directory ends in a slash. */
  function Line(t: Tree, root: Path, p: Path): (r: string)
    requires p in t
    ensures RelativePath(root, p) <= r
    ensures r[|RelativePath(root, p)|..] == if t[p].Directory? then "/" else ""
  {
    RelativePath(root, p) + if t[p].Directory? then "/" else ""
  }

  function Lines(t: Tree, root: Path, hits: seq<Path>): (r: seq<string>)
    requires forall i :: 0 <= i < |hits| ==> hits[i] in t
    ensures |r| == |hits| && forall i :: 0 <= i < |r| ==> r[i] == Line(t, root, hits[i])
  {
    seq(|hits|, i requires 0 <= i < |hits| => Line(t, root, hits[i]))
  }

  function CountDirectories(t: Tree, hits: seq<Path>): nat
    requires forall i :: 0 <= i < |hits| ==> hits[i] in t
  {
    if hits == [] then 0
    else CountDirectories(t, hits[..|hits| - 1]) + if t[hits[|hits| - 1]].Directory? then 1 else 0
  }

  /** The walk is cut off at the line that reaches the limit; a limit below one stops it
      at the first line. */
  function Cutoff(maxResults: int): nat
  {
    if maxResults < 1 then 1 else maxResults
  }

  /** What the variables of the walk hold after the entries whose hits are `hits`. */
  ghost predicate IsTally(t: Tree, root: Path, hits: seq<Path>, found: Found, maxResults: int)
    requires forall i :: 0 <= i < |hits| ==> hits[i] in t
  {
    && found.lines == Lines(t, root, hits)
    && (found.truncated <==> |hits| >= Cutoff(maxResults))
    && found.directories == CountDirectories(t, hits)
    && found.files + found.directories == |hits|
  }

  /** Why the callback fails on an entry, if it does: below "/" every entry counts as outside,
      and otherwise none does. */
  function Refusal(t: Tree, root: Path, matcher: Matcher, p: Path): Option<ToolError>
    requires p in t && p != []
  {
    if root == [] then Some(ESCAPES)
    else if IsBadMatch(t, matcher, p) then Some(matcher(p[|p| - 1]).error)
    else None
  }

  /** The callback of the walk, on one visited entry. */
  method Visit(t: Tree, root: Path, path: Path, matcher: Matcher, maxResults: int,
               found: Found, ghost hits: seq<Path>)
    returns (r: Result<Found, ToolError>)
    requires WellFormed(t) && root in t && path in t && root < path
    requires AreEntries(t, hits) && IsTally(t, root, hits, found, maxResults) && !found.truncated
    ensures Refusal(t, root, matcher, path) == if r.Failure? then Some(r.error) else None
    ensures r.Success? ==>
      var grown := hits + if IsHit(t, matcher, path) then [path] else [];
      IsTally(t, root, grown, r.value, maxResults) && |grown| <= Cutoff(maxResults)
  {
    VisitIsInside(t, root, path);
    if !Inside(AbsPath(root), AbsPath(path)) {
      return Failure(ESCAPES);
    }
    assert hits + [] == hits;
    if t[path].Link? {
      return Success(found);
    }
    var matched := matcher(path[|path| - 1]);
    if matched.Failure? {
      return Failure(matched.error);
    }
    if !matched.value {
      return Success(found);
    }
    TallyStep(t, root, hits, path, found, maxResults);
    var lines := found.lines + [Line(t, root, path)];
    var files, directories := found.files, found.directories;
    if t[path].Directory? {
      directories := directories + 1;
    } else {
      files := files + 1;
    }
    return Success(Found(lines, |lines| >= maxResults, files, directories));
  }

  /** An entry is refused before `n` hits have been seen. */
  ghost predicate FailsAt(t: Tree, root: Path, matcher: Matcher, visits: seq<Path>, i: nat, n: nat)
    requires AreEntries(t, visits) && i < |visits|
  {
    Refusal(t, root, matcher, visits[i]).Some? && |Hits(t, matcher, visits[..i])| < n
  }

  /** `why` is the reason why the first entry that is refused is so. */
  ghost predicate IsFirstRefusal(t: Tree, root: Path, matcher: Matcher, visits: seq<Path>, why: ToolError)
    requires AreEntries(t, visits)
  {
    visits != [] &&
    match Refusal(t, root, matcher, visits[0])
    case Some(e) => e == why
    case None => IsFirstRefusal(t, root, matcher, visits[1..], why)
  }

  lemma {:induction false} FirstRefused(t: Tree, root: Path, matcher: Matcher, visits: seq<Path>, k: nat)
    requires AreEntries(t, visits) && k < |visits| && Refusal(t, root, matcher, visits[k]).Some?
    requires forall i :: 0 <= i < k ==> Refusal(t, root, matcher, visits[i]).None?
    ensures IsFirstRefusal(t, root, matcher, visits, Refusal(t, root, matcher, visits[k]).value)
    decreases k
  {
    if k > 0 { FirstRefused(t, root, matcher, visits[1..], k - 1); }
  }

  /** The first `n` hits. */
  function FirstHits(t: Tree, matcher: Matcher, visits: seq<Path>, n: nat): (r: seq<Path>)
    requires AreEntries(t, visits)
    ensures forall i :: 0 <= i < |r| ==> r[i] in t
  {
    var all := Hits(t, matcher, visits);
    if |all| < n then all else all[..n]
  }

  lemma {:induction false} CutoffSettles(t: Tree, root: Path, matcher: Matcher, visits: seq<Path>, k: nat, n: nat)
    requires AreEntries(t, visits) && k <= |visits|
    requires forall i :: 0 <= i < k ==> Refusal(t, root, matcher, visits[i]).None?
    requires |Hits(t, matcher, visits[..k])| <= n && (k < |visits| ==> |Hits(t, matcher, visits[..k])| == n)
    ensures forall i {:trigger FailsAt(t, root, matcher, visits, i, n)} :: 0 <= i < |visits| ==> !FailsAt(t, root, matcher, visits, i, n)
    ensures FirstHits(t, matcher, visits, n) == Hits(t, matcher, visits[..k])
  {
    CutoffHides(t, matcher, visits, k);
  }

  /** The lines are those of all hits, or of as many as are wanted, but of one at least; and the
      result says it was cut off exactly when there were that many. */
  ghost predicate IsCutOff(t: Tree, root: Path, all: seq<Path>, found: Found, maxResults: int)
    requires forall i :: 0 <= i < |all| ==> all[i] in t
  {
    var most := if maxResults < 1 then 1 else maxResults;
    && |found.lines| == (if |all| < most then |all| else most) && found.lines <= Lines(t, root, all)
    && (found.truncated <==> |all| >= most)
  }

  lemma {:induction false} TallyIsCutOff(t: Tree, root: Path, matcher: Matcher, visits: seq<Path>, found: Found, maxResults: int)
    requires AreEntries(t, visits)
    requires IsTally(t, root, FirstHits(t, matcher, visits, Cutoff(maxResults)), found, maxResults)
    ensures IsCutOff(t, root, Hits(t, matcher, visits), found, maxResults)
  {
  }

  /** The walk has come to entry `next` without a refusal. */
  ghost predicate HasLookedAt(t: Tree, root: Path, visits: seq<Path>, matcher: Matcher, maxResults: int,
                              next: nat, found: Found)
    requires AreEntries(t, visits) && next <= |visits|
  {
    && (forall i :: 0 <= i < next ==> Refusal(t, root, matcher, visits[i]).None?)
    && var hits := Hits(t, matcher, visits[..next]);
    && |hits| <= Cutoff(maxResults)
    && IsTally(t, root, hits, found, maxResults)
  }

  /** The walk of `runFind` with `visits` in the order that `WalkDir` produces. It reports the
      first `Cutoff` hits, says it was cut off exactly when that many were reached, counts each
      kind, and fails exactly when it meets an entry that is refused before it is cut off: any
      entry when the workspace is "/", and otherwise one whose name cannot be matched. Its error
      is that of the first entry refused. */
  method FindBelow(t: Tree, root: Path, dir: Path, visits: seq<Path>, matcher: Matcher, maxResults: int)
    returns (r: Result<Found, ToolError>)
    requires WellFormed(t) && root in t && root <= dir
    requires AreBelow(t, dir, visits)
    ensures r.Failure? <==> exists i {:trigger FailsAt(t, root, matcher, visits, i, Cutoff(maxResults))} ::
      0 <= i < |visits| && FailsAt(t, root, matcher, visits, i, Cutoff(maxResults))
    ensures r.Failure? ==> IsFirstRefusal(t, root, matcher, visits, r.error)
    ensures r.Success? ==> IsTally(t, root, FirstHits(t, matcher, visits, Cutoff(maxResults)), r.value, maxResults)
    ensures r.Success? ==> IsCutOff(t, root, Hits(t, matcher, visits), r.value, maxResults)
  {
    hide Hits, IsTally, HasLookedAt, Refusal, IsFirstRefusal, IsCutOff, FirstHits, IsHit, Cutoff, WellFormed;
    assert AreEntries(t, visits);
    var found := Found([], false, 0, 0);
    var next := 0;
    LookedAtNothing(t, root, visits, matcher, maxResults);
    while next < |visits| && !found.truncated
      invariant 0 <= next <= |visits|
      invariant HasLookedAt(t, root, visits, matcher, maxResults, next, found)
      decreases |visits| - next
    {
      LooksFurther(t, root, dir, visits, matcher, maxResults, next, found);
      var step := Visit(t, root, visits[next], matcher, maxResults, found, Hits(t, matcher, visits[..next]));
      if step.Failure? {
        FailsThere(t, root, visits, matcher, maxResults, next, found);
        return Failure(step.error);
      }
      LookedAtMore(t, root, visits, matcher, maxResults, next, found, step.value);
      found := step.value;
      next := next + 1;
    }
    LookedAtEnough(t, root, visits, matcher, maxResults, next, found);
    return Success(found);
  }

  lemma {:induction false} LookedAtNothing(t: Tree, root: Path, visits: seq<Path>, matcher: Matcher, maxResults: int)
    requires AreEntries(t, visits)
    ensures HasLookedAt(t, root, visits, matcher, maxResults, 0, Found([], false, 0, 0))
  {
    assert visits[..0] == [];
  }

  lemma {:induction false} LooksFurther(t: Tree, root: Path, dir: Path, visits: seq<Path>, matcher: Matcher, maxResults: int,
      next: nat, found: Found)
    requires AreBelow(t, dir, visits) && root <= dir && AreEntries(t, visits) && next < |visits| && !found.truncated
    requires HasLookedAt(t, root, visits, matcher, maxResults, next, found)
    ensures visits[next] in t && root < visits[next] && AreEntries(t, visits[..next])
    ensures forall i :: 0 <= i < |Hits(t, matcher, visits[..next])| ==> Hits(t, matcher, visits[..next])[i] in t
    ensures AreEntries(t, Hits(t, matcher, visits[..next]))
    ensures IsTally(t, root, Hits(t, matcher, visits[..next]), found, maxResults)
  {
    hide IsTally;
  }

  lemma {:induction false} FailsThere(t: Tree, root: Path, visits: seq<Path>, matcher: Matcher, maxResults: int, next: nat, found: Found)
    requires AreEntries(t, visits) && next < |visits| && !found.truncated
    requires HasLookedAt(t, root, visits, matcher, maxResults, next, found) && Refusal(t, root, matcher, visits[next]).Some?
    ensures FailsAt(t, root, matcher, visits, next, Cutoff(maxResults))
    ensures IsFirstRefusal(t, root, matcher, visits, Refusal(t, root, matcher, visits[next]).value)
  {
    FirstRefused(t, root, matcher, visits, next);
  }

  lemma {:induction false} LookedAtMore(t: Tree, root: Path, visits: seq<Path>, matcher: Matcher, maxResults: int, next: nat,
      found: Found, more: Found)
    requires AreEntries(t, visits) && next < |visits|
    requires HasLookedAt(t, root, visits, matcher, maxResults, next, found) && Refusal(t, root, matcher, visits[next]).None?
    requires var grown := Hits(t, matcher, visits[..next]) + if IsHit(t, matcher, visits[next]) then [visits[next]] else [];
      (forall i :: 0 <= i < |grown| ==> grown[i] in t) && IsTally(t, root, grown, more, maxResults) && |grown| <= Cutoff(maxResults)
    ensures HasLookedAt(t, root, visits, matcher, maxResults, next + 1, more)
  {
    HitsStep(t, matcher, visits, next);
  }

  lemma {:induction false} LookedAtEnough(t: Tree, root: Path, visits: seq<Path>, matcher: Matcher, maxResults: int, next: nat,
      found: Found)
    requires AreEntries(t, visits) && next <= |visits| && (next == |visits| || found.truncated)
    requires HasLookedAt(t, root, visits, matcher, maxResults, next, found)
    ensures forall i {:trigger FailsAt(t, root, matcher, visits, i, Cutoff(maxResults))} ::
      0 <= i < |visits| ==> !FailsAt(t, root, matcher, visits, i, Cutoff(maxResults))
    ensures IsTally(t, root, FirstHits(t, matcher, visits, Cutoff(maxResults)), found, maxResults)
    ensures IsCutOff(t, root, Hits(t, matcher, visits), found, maxResults)
  {
    CutoffSettles(t, root, matcher, visits, next, Cutoff(maxResults));
    TallyIsCutOff(t, root, matcher, visits, found, maxResults);
  }

  lemma {:induction false} VisitIsInside(t: Tree, root: Path, path: Path)
    requires WellFormed(t) && root in t && path in t && root < path
    ensures Inside(AbsPath(root), AbsPath(path)) <==> root != []
  {
    PathsAreNames(t, root);
    PathsAreNames(t, path);
    InsideIsAncestry(root, path);
  }

  lemma {:induction false} HitsStep(t: Tree, matcher: Matcher, visits: seq<Path>, k: nat)
    requires AreEntries(t, visits)
    requires k < |visits|
    ensures Hits(t, matcher, visits[..k + 1])
      == Hits(t, matcher, visits[..k]) + if IsHit(t, matcher, visits[k]) then [visits[k]] else []
  {
    assert visits[..k + 1][..k] == visits[..k];
  }

  lemma {:induction false} TallyStep(t: Tree, root: Path, hits: seq<Path>, path: Path, found: Found, maxResults: int)
    requires path in t && forall i :: 0 <= i < |hits| ==> hits[i] in t
    requires IsTally(t, root, hits, found, maxResults)
    ensures Lines(t, root, hits + [path]) == found.lines + [Line(t, root, path)]
    ensures CountDirectories(t, hits + [path]) == found.directories + if t[path].Directory? then 1 else 0
  {
    assert (hits + [path])[..|hits|] == hits;
  }

  /** The hits before the cutoff are the first hits of all, and past it there are at least as many. */
  lemma {:induction false} CutoffHides(t: Tree, matcher: Matcher, visits: seq<Path>, k: nat)
    requires AreEntries(t, visits)
    requires k <= |visits|
    ensures Hits(t, matcher, visits[..k]) <= Hits(t, matcher, visits)
    ensures forall i :: k <= i < |visits| ==> |Hits(t, matcher, visits[..i])| >= |Hits(t, matcher, visits[..k])|
    ensures k == |visits| ==> visits[..k] == visits
  {
    HitsGrow(t, matcher, visits, k);
    forall i | k <= i < |visits|
      ensures |Hits(t, matcher, visits[..i])| >= |Hits(t, matcher, visits[..k])|
    {
      HitsGrow(t, matcher, visits[..i], k);
      assert visits[..i][..k] == visits[..k];
    }
  }

  /** The hits of a longer walk start with the hits of a shorter one. */
  lemma {:induction false} HitsGrow(t: Tree, matcher: Matcher, visits: seq<Path>, k: nat)
    requires AreEntries(t, visits)
    requires k <= |visits|
    ensures Hits(t, matcher, visits[..k]) <= Hits(t, matcher, visits)
    decreases |visits|
  {
    if k < |visits| {
      var front := visits[..|visits| - 1];
      HitsGrow(t, matcher, front, k);
      assert front[..k] == visits[..k];
    } else {
      assert visits[..k] == visits;
    }
  }

  /** Hits come in the order of the walk. */
  lemma {:induction false} HitsKeepOrder(t: Tree, matcher: Matcher, visits: seq<Path>) returns (at: seq<nat>)
    requires AreEntries(t, visits)
    ensures |at| == |Hits(t, matcher, visits)| && forall i, j :: 0 <= i < j < |at| ==> at[i] < at[j]
    ensures forall i :: 0 <= i < |at| ==> at[i] < |visits| && Hits(t, matcher, visits)[i] == visits[at[i]]
  {
    at := [];
    if visits != [] {
      at := HitsKeepOrder(t, matcher, visits[..|visits| - 1]);
      if IsHit(t, matcher, visits[|visits| - 1]) { at := at + [|visits| - 1]; }
    }
  }

  /** The number of directories among the hits. */
  lemma {:induction false} DirectoriesAreCounted(t: Tree, hits: seq<Path>)
    requires forall i :: 0 <= i < |hits| ==> hits[i] in t
    ensures CountDirectories(t, hits) == |set i | 0 <= i < |hits| && t[hits[i]].Directory?|
  {
    var all := set i | 0 <= i < |hits| && t[hits[i]].Directory?;
    if hits != [] {
      var front := hits[..|hits| - 1];
      DirectoriesAreCounted(t, front);
      var before := set i | 0 <= i < |front| && t[front[i]].Directory?;
      assert all == before + if t[hits[|hits| - 1]].Directory? then {|hits| - 1} else {};
    }
  }

  /** Nothing is missed and nothing is repeated: the hits of a full walk are the matching
      entries below the directory, each once. */
  lemma {:induction false} HitsAreTheMatches(t: Tree, dir: Path, matcher: Matcher, visits: seq<Path>, p: Path)
    requires IsWalkOf(t, dir, visits)
    ensures var hits := Hits(t, matcher, visits);
      && (p in hits <==> p in t && dir < p && !t[p].Link? && matcher(p[|p| - 1]) == Success(true))
      && multiset(hits)[p] <= 1
  {
    CountOfHits(t, matcher, visits, p);
    if p in visits {
      var k :| 0 <= k < |visits| && visits[k] == p;
      CountOfDistinct(visits, k);
    }
  }

  lemma {:induction false} CountOfHits(t: Tree, matcher: Matcher, visits: seq<Path>, p: Path)
    requires AreEntries(t, visits)
    ensures multiset(Hits(t, matcher, visits))[p]
      == if p in t && p != [] && IsHit(t, matcher, p) then multiset(visits)[p] else 0
  {
    if visits != [] {
      var front := visits[..|visits| - 1];
      CountOfHits(t, matcher, front, p);
      assert visits == front + [visits[|visits| - 1]];
    }
  }

  lemma {:induction false} CountOfDistinct(visits: seq<Path>, k: nat)
    requires forall i, j :: 0 <= i < j < |visits| ==> visits[i] != visits[j]
    requires k < |visits|
    ensures multiset(visits)[visits[k]] == 1
  {
    var a, b := visits[..k], visits[k + 1..];
    assert visits == a + [visits[k]] + b;
    assert visits[k] !in a && visits[k] !in b;
  }

  /** The path part of a reported line. */
  function StripSlash(line: string): string
  {
    if line != "" && line[|line| - 1] == '/' then line[..|line| - 1] else line
  }

  /** Every reported line, its trailing slash removed, resolves to the entry that was
      visited, unless it is all white space or starts with a backslash. */
  lemma {:induction false} ReportedLineResolves(t: Tree, root: Path, p: Path)
    requires IsServable(t, root) && IsReal(t, p) && Within(root, p) && p != root
    ensures var line := StripSlash(Line(t, root, p));
      ResolvePath(t, root, line) == Success(p) <==> !IsBlank(line) && line[0] != '\\'
  {
    var below := p[|root|..];
    assert p == root + below;
    RelBelow(root, below);
    PathsAreNames(t, p);
    assert forall i :: 0 <= i < |below| ==> p[|root| + i] == below[i];
    LastOfRelPath(below);
    assert StripSlash(Line(t, root, p)) == RelativePath(root, p);
    RelativePathResolvesBack(t, root, p);
  }

  lemma {:induction false} LastOfRelPath(parts: seq<string>)
    requires AllNames(parts) && parts != []
    ensures var s := RelPath(parts); s != "" && s[|s| - 1] != '/'
  {
    var last := parts[|parts| - 1];
    assert last[|last| - 1] in last;
    if |parts| > 1 {
      JoinOfConcat(parts[..|parts| - 1], [last], "/");
      assert parts == parts[..|parts| - 1] + [last];
    }
  }
}
