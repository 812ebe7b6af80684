/** `uniq` (coreutils/text.go) as run-length coding. */
module Runs {
  import opened Strings
  import opened Lines

  /** A line and how often it stands in a row. */
  datatype Run = Run(count: nat, line: string)

  /** How many lines from the start equal the first. */
  function RunLength(lines: seq<string>): (n: nat)
    requires lines != []
    ensures 1 <= n <= |lines|
    ensures forall i :: 0 <= i < n ==> lines[i] == lines[0]
    ensures n < |lines| ==> lines[n] != lines[0]
  {
    if |lines| > 1 && lines[1] == lines[0] then RunLength(lines[1..]) + 1 else 1
  }

  function RunsOf(lines: seq<string>): seq<Run>
    decreases |lines|
  {
    if lines == [] then []
    else [Run(RunLength(lines), lines[0])] + RunsOf(lines[RunLength(lines)..])
  }

  function Repeat(line: string, n: nat): (r: seq<string>)
    ensures |r| == n && forall i :: 0 <= i < n ==> r[i] == line
  {
    if n == 0 then [] else [line] + Repeat(line, n - 1)
  }

  function Expand(runs: seq<Run>): seq<string>
  {
    if runs == [] then [] else Repeat(runs[0].line, runs[0].count) + Expand(runs[1..])
  }

  /** A proper coding: no empty run, and neighbours differ. */
  predicate IsCoding(runs: seq<Run>)
  {
    runs == [] ||
    (runs[0].count > 0 && (|runs| > 1 ==> runs[0].line != runs[1].line) && IsCoding(runs[1..]))
  }

  /** The runs of a list code it: they expand to it, none is empty and neighbours differ. */
  lemma {:induction false} RunsCode(lines: seq<string>)
    ensures Expand(RunsOf(lines)) == lines && IsCoding(RunsOf(lines))
    ensures lines != [] ==> RunsOf(lines) != [] && RunsOf(lines)[0].line == lines[0]
    decreases |lines|
  {
    if lines != [] {
      var run, rest := FirstRun(lines);
      RunsCode(rest);
      PutRun(run, RunsOf(rest));
    }
  }

  /** Taking the first run off a list. */
  lemma {:induction false} FirstRun(lines: seq<string>) returns (run: Run, rest: seq<string>)
    requires lines != []
    ensures run.count > 0 && run.line == lines[0] && |rest| < |lines|
    ensures lines == Repeat(run.line, run.count) + rest && RunsOf(lines) == [run] + RunsOf(rest)
    ensures rest != [] ==> rest[0] != run.line
  {
    run, rest := Run(RunLength(lines), lines[0]), lines[RunLength(lines)..];
    assert Repeat(run.line, run.count) == lines[..run.count];
  }

  lemma {:induction false} PutRun(run: Run, rest: seq<Run>)
    ensures Expand([run] + rest) == Repeat(run.line, run.count) + Expand(rest)
    ensures IsCoding([run] + rest) <==> run.count > 0 && (rest != [] ==> rest[0].line != run.line) && IsCoding(rest)
  {
    assert ([run] + rest)[1..] == rest;
  }

  /** A list has no other coding. */
  lemma {:induction false} CodingIsUnique(runs: seq<Run>)
    requires IsCoding(runs)
    ensures RunsOf(Expand(runs)) == runs
  {
    if runs != [] {
      var run, rest := runs[0], runs[1..];
      CodingIsUnique(rest);
      if rest != [] {
        assert Expand(rest)[0] == rest[0].line;
      }
      RunsOfLongerRun(run.line, run.count, Expand(rest));
    }
  }

  lemma {:induction false} RunsOfLongerRun(line: string, n: nat, more: seq<string>)
    requires n > 0 && (more != [] ==> more[0] != line)
    ensures RunsOf(Repeat(line, n) + more) == [Run(n, line)] + RunsOf(more)
  {
    var lines := Repeat(line, n) + more;
    if more != [] { assert lines[n] == more[0]; }
    RunLengthIs(lines, n);
    assert lines[n..] == more;
  }

  lemma {:induction false} RunLengthIs(lines: seq<string>, n: nat)
    requires 0 < n <= |lines| && forall i :: 0 <= i < n ==> lines[i] == lines[0]
    requires n < |lines| ==> lines[n] != lines[0]
    ensures RunLength(lines) == n
  {
    var m := RunLength(lines);
    assert m < |lines| ==> lines[m] != lines[0];
  }

  function TotalCount(runs: seq<Run>): nat
  {
    if runs == [] then 0 else runs[0].count + TotalCount(runs[1..])
  }

  lemma {:induction false} CountsSumUp(runs: seq<Run>)
    ensures TotalCount(runs) == |Expand(runs)|
  {
    if runs != [] { CountsSumUp(runs[1..]); }
  }

  // ----- the output

  /** Blanks in front, up to seven columns. */
  function Pad(s: string): (r: string)
    ensures |r| == if |s| > 7 then |s| else 7
    ensures r[|r| - |s|..] == s && forall i :: 0 <= i < |r| - |s| ==> r[i] == ' '
    decreases 7 - |s|
  {
    if |s| >= 7 then s else Pad(" " + s)
  }

  /** One line of output; the number stands right-aligned in seven columns. */
  function Shown(run: Run, count: bool): (r: string)
    ensures !count ==> r == run.line
    ensures count ==>
      var n := |r| - |run.line| - 1;
      n >= 7 && r[n + 1..] == run.line && r[n] == ' ' && r[..n] == Pad(Itoa(run.count))
  {
    if count then Pad(Itoa(run.count)) + " " + run.line else run.line
  }

  function AllShown(runs: seq<Run>, count: bool): (r: seq<string>)
    ensures |r| == |runs| && forall i :: 0 <= i < |r| ==> r[i] == Shown(runs[i], count)
  {
    seq(|runs|, i requires 0 <= i < |runs| => Shown(runs[i], count))
  }

  /** The inner loop: how far the run at `index` goes. */
  method MeasureRun(lines: seq<string>, index: nat) returns (run: nat)
    requires index < |lines|
    ensures run == RunLength(lines[index..])
  {
    run := 1;
    while index + run < |lines| && lines[index + run] == lines[index]
      invariant 1 <= run <= |lines| - index
      invariant forall i :: index <= i < index + run ==> lines[i] == lines[index]
    {
      run := run + 1;
    }
    RunLengthIs(lines[index..], run);
  }

  function Mapped(runs: seq<Run>, show: Run -> string): (r: seq<string>)
    ensures |r| == |runs| && forall i :: 0 <= i < |r| ==> r[i] == show(runs[i])
  {
    seq(|runs|, i requires 0 <= i < |runs| => show(runs[i]))
  }

  /** The loop of `Uniq`, whatever is shown of a run. */
  method CollectRuns(lines: seq<string>, show: Run -> string) returns (out: seq<string>)
    ensures out == Mapped(RunsOf(lines), show)
  {
    hide RunsOf, RunLength, IsReadTo;
    out := [];
    var index := 0;
    ghost var done: seq<Run> := [];
    ReadToStartAndEnd(lines);
    while index < |lines|
      invariant 0 <= index <= |lines|
      invariant out == Mapped(done, show) && IsReadTo(lines, index, done)
    {
      var run := MeasureRun(lines, index);
      NextRun(lines, index, done);
      MappedMore(done, Run(run, lines[index]), show);
      done := done + [Run(run, lines[index])];
      out := out + [show(Run(run, lines[index]))];
      index := index + run;
    }
  }

  /** The runs of the first `index` lines are `done`, and there a run starts. */
  ghost predicate IsReadTo(lines: seq<string>, index: nat, done: seq<Run>)
  {
    index <= |lines| && done + RunsOf(lines[index..]) == RunsOf(lines)
  }

  lemma {:induction false} ReadToStartAndEnd(lines: seq<string>)
    ensures IsReadTo(lines, 0, [])
    ensures forall done :: IsReadTo(lines, |lines|, done) ==> done == RunsOf(lines)
  {
    assert lines[0..] == lines && lines[|lines|..] == [];
  }

  lemma {:induction false} MappedMore(runs: seq<Run>, run: Run, show: Run -> string)
    ensures Mapped(runs + [run], show) == Mapped(runs, show) + [show(run)]
  {
  }

  lemma {:induction false} NextRun(lines: seq<string>, index: nat, done: seq<Run>)
    requires index < |lines| && IsReadTo(lines, index, done)
    ensures var run := RunLength(lines[index..]);
      IsReadTo(lines, index + run, done + [Run(run, lines[index])])
  {
    var rest := lines[index..];
    var run := RunLength(rest);
    RunsStep(rest);
    DropDrop(lines, index, run);
    Append(done, Run(run, lines[index]), RunsOf(lines[index + run..]));
  }

  lemma {:induction false} RunsStep(lines: seq<string>)
    requires lines != []
    ensures RunsOf(lines) == [Run(RunLength(lines), lines[0])] + RunsOf(lines[RunLength(lines)..])
  {
  }

  lemma {:induction false} DropDrop(lines: seq<string>, i: nat, k: nat)
    requires i <= |lines| && k <= |lines| - i
    ensures lines[i..][k..] == lines[i + k..]
  {
  }

  lemma {:induction false} Append(done: seq<Run>, run: Run, rest: seq<Run>)
    ensures done + ([run] + rest) == done + [run] + rest
  {
  }

  method Uniq(text: string, count: bool) returns (output: string)
    ensures output == JoinLines(AllShown(RunsOf(SplitLines(text)), count))
    ensures SplitLines(output) == AllShown(RunsOf(SplitLines(text)), count)
  {
    var out := CollectRuns(SplitLines(text), run => Shown(run, count));
    assert out == AllShown(RunsOf(SplitLines(text)), count);
    ShownAreLines(text, count);
    SplitOfJoinLines(out);
    return JoinLines(out);
  }

  lemma {:induction false} PadIsLine(s: string)
    requires '\n' !in s
    ensures '\n' !in Pad(s)
    decreases 7 - |s|
  {
    if |s| < 7 { PadIsLine(" " + s); }
  }

  lemma {:induction false} ShownAreLines(text: string, count: bool)
    ensures AreLines(AllShown(RunsOf(SplitLines(text)), count))
  {
    var lines := SplitLines(text);
    var runs := RunsOf(lines);
    SplitAreLines(text);
    forall i | 0 <= i < |runs| ensures '\n' !in AllShown(runs, count)[i] {
      PadIsLine(Itoa(runs[i].count));
      RunLinesOccur(lines, i);
    }
  }

  lemma {:induction false} RunLinesOccur(lines: seq<string>, i: nat)
    requires i < |RunsOf(lines)|
    ensures RunsOf(lines)[i].line in lines
    decreases |lines|
  {
    if i > 0 { RunLinesOccur(lines[RunLength(lines)..], i - 1); }
  }

  // ----- the other implementation

  /** The lines that differ from the line before. */
  function Deduped(lines: seq<string>): seq<string>
  {
    if lines == [] then []
    else
      var front, last := lines[..|lines| - 1], lines[|lines| - 1];
      if front != [] && front[|front| - 1] == last then Deduped(front) else Deduped(front) + [last]
  }

  method UniqueAdjacent(lines: seq<string>) returns (out: seq<string>)
    ensures out == Deduped(lines)
  {
    out := [];
    for index := 0 to |lines|
      invariant out == Deduped(lines[..index])
    {
      assert lines[..index + 1][..index] == lines[..index];
      if index > 0 && lines[index] == lines[index - 1] {
        continue;
      }
      out := out + [lines[index]];
    }
    assert lines[..|lines|] == lines;
  }

  function LinesOf(runs: seq<Run>): (r: seq<string>)
    ensures |r| == |runs| && forall i :: 0 <= i < |r| ==> r[i] == runs[i].line
  {
    seq(|runs|, i requires 0 <= i < |runs| => runs[i].line)
  }

  lemma {:induction false} DedupedOfConcat(a: seq<string>, b: seq<string>)
    requires a != [] && b != [] && a[|a| - 1] != b[0]
    ensures Deduped(a + b) == Deduped(a) + Deduped(b)
  {
    var c := a + b;
    var front := b[..|b| - 1];
    assert c[..|c| - 1] == a + front;
    if front == [] {
      assert a + front == a;
      assert Deduped(front) == [];
    } else {
      DedupedOfConcat(a, front);
      assert (a + front)[|a + front| - 1] == front[|front| - 1];
    }
  }

  lemma {:induction false} DedupedOfRun(lines: seq<string>)
    requires lines != [] && forall i :: 0 <= i < |lines| ==> lines[i] == lines[0]
    ensures Deduped(lines) == [lines[0]]
  {
    if |lines| == 1 {
      assert Deduped(lines[..0]) == [];
    } else {
      DedupedOfRun(lines[..|lines| - 1]);
    }
  }

  /** Without counts, `uniq` agrees with the loop that `sort` uses to drop repeated lines. */
  lemma {:induction false} UniqIsUniqueAdjacent(lines: seq<string>)
    ensures LinesOf(RunsOf(lines)) == AllShown(RunsOf(lines), false) == Deduped(lines)
    decreases |lines|
  {
    if lines != [] {
      var run, rest := FirstRun(lines);
      UniqIsUniqueAdjacent(rest);
      var a := Repeat(run.line, run.count);
      DedupedOfRun(a);
      DedupedAtRun(a, rest);
      assert LinesOf([run] + RunsOf(rest)) == [run.line] + LinesOf(RunsOf(rest));
    }
  }

  lemma {:induction false} DedupedAtRun(a: seq<string>, b: seq<string>)
    requires a != [] && (b != [] ==> a[|a| - 1] != b[0])
    ensures Deduped(a + b) == Deduped(a) + Deduped(b)
  {
    if b == [] { assert a + b == a; } else { DedupedOfConcat(a, b); }
  }
}
