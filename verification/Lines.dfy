/** Texts as lists of lines (coreutils/coreutils.go, coreutils/text.go). Every character of a
    string stands for one byte. */
module Lines {
  import opened Strings

  const MAX_LINE_LENGTH := 2048

  predicate EndsWithNewline(text: string)
  {
    text != "" && text[|text| - 1] == '\n'
  }

  /** `SplitLines`: a single newline at the end does not start another line. */
  function SplitLines(text: string): seq<string>
  {
    if text == "" then []
    else Split(if EndsWithNewline(text) then text[..|text| - 1] else text, "\n")
  }

  function JoinLines(lines: seq<string>): string
  {
    if lines == [] then "" else Join(lines, "\n") + "\n"
  }

  /** A line holds no newline. */
  ghost predicate AreLines(lines: seq<string>)
  {
    FreeOf(lines, '\n')
  }

  // ----- splitting and joining

  lemma {:induction false} SplitAreLines(text: string)
    ensures AreLines(SplitLines(text))
  {
    if text != "" {
      SplitIsFree(if EndsWithNewline(text) then text[..|text| - 1] else text, '\n');
    }
  }

  /** Lines that are joined and split again are the same lines. */
  lemma {:induction false} SplitOfJoinLines(lines: seq<string>)
    requires AreLines(lines)
    ensures SplitLines(JoinLines(lines)) == lines
  {
    if lines != [] {
      SplitOfJoin(lines, '\n');
      var text := JoinLines(lines);
      assert text[..|text| - 1] == Join(lines, "\n");
    }
  }

  /** A text that is split and joined again is the same text, with a newline at its end. */
  lemma {:induction false} JoinOfSplitLines(text: string)
    ensures JoinLines(SplitLines(text)) == if text == "" || EndsWithNewline(text) then text else text + "\n"
  {
    if text != "" {
      var trimmed := if EndsWithNewline(text) then text[..|text| - 1] else text;
      JoinOfSplit(trimmed, "\n");
      assert EndsWithNewline(text) ==> trimmed + "\n" == text;
    }
  }

  // ----- counting

  function CountNewlines(text: string): nat
  {
    if text == "" then 0 else CountNewlines(text[..|text| - 1]) + if text[|text| - 1] == '\n' then 1 else 0
  }

  /** The `Lines` field of `WordCount`. */
  function CountLines(text: string): nat
  {
    CountNewlines(text) + if text != "" && !EndsWithNewline(text) then 1 else 0
  }

  lemma {:induction false} NewlinesOfConcat(a: string, b: string)
    ensures CountNewlines(a + b) == CountNewlines(a) + CountNewlines(b)
  {
    if b == "" {
      assert a + b == a;
    } else {
      assert (a + b)[..|a + b| - 1] == a + b[..|b| - 1];
      NewlinesOfConcat(a, b[..|b| - 1]);
    }
  }

  lemma {:induction false} NoNewlines(text: string)
    requires '\n' !in text
    ensures CountNewlines(text) == 0
  {
    if text != "" {
      NoNewlines(text[..|text| - 1]);
    }
  }

  lemma {:induction false} NewlinesOfSplit(text: string)
    ensures |Split(text, "\n")| == CountNewlines(text) + 1
    decreases |text|
  {
    if '\n' in text {
      var k := FirstOf(text, '\n');
      assert text == text[..k] + ['\n'] + text[k + 1..];
      SplitAtFirst(text[..k], '\n', text[k + 1..]);
      NewlinesOfSplit(text[k + 1..]);
      NewlinesOfConcat(text[..k] + ['\n'], text[k + 1..]);
      NewlinesOfConcat(text[..k], ['\n']);
      NoNewlines(text[..k]);
      assert CountNewlines(['\n']) == 1 by { assert ['\n'][..0] == ""; }
    } else {
      SplitAtFirst(text, '\n', "");
      NoNewlines(text);
    }
  }

  /** Lines are counted as they are split. */
  lemma {:induction false} CountIsNumberOfLines(text: string)
    ensures CountLines(text) == |SplitLines(text)|
  {
    if text != "" {
      var trimmed := if EndsWithNewline(text) then text[..|text| - 1] else text;
      NewlinesOfSplit(trimmed);
    }
  }

  // ----- long lines

  function ClampLine(line: string): (r: (string, bool))
    ensures r.0 <= line && |r.0| == (if |line| > 2048 then 2048 else |line|) && (r.1 <==> r.0 != line)
  {
    if |line| <= MAX_LINE_LENGTH then (line, false) else (line[..MAX_LINE_LENGTH], true)
  }

  function Clamped(lines: seq<string>): (r: seq<string>)
    ensures |r| == |lines| && forall i :: 0 <= i < |r| ==> r[i] == ClampLine(lines[i]).0
  {
    seq(|lines|, i requires 0 <= i < |lines| => ClampLine(lines[i]).0)
  }

  method ClampLines(lines: seq<string>) returns (clamped: seq<string>, truncated: bool)
    ensures clamped == Clamped(lines)
    ensures truncated <==> clamped != lines
  {
    clamped, truncated := [], false;
    for i := 0 to |lines|
      invariant clamped == Clamped(lines[..i])
      invariant truncated <==> clamped != lines[..i]
    {
      var (line, cut) := ClampLine(lines[i]);
      assert lines[..i + 1] == lines[..i] + [lines[i]];
      truncated := truncated || cut;
      clamped := clamped + [line];
    }
    assert lines[..|lines|] == lines;
  }

  lemma {:induction false} ClampedAreLines(lines: seq<string>)
    requires AreLines(lines)
    ensures AreLines(Clamped(lines))
  {
    forall i | 0 <= i < |lines| ensures '\n' !in Clamped(lines)[i] {
      assert Clamped(lines)[i] <= lines[i];
    }
  }

  // ----- head and tail

  /** The first `n` lines; a negative `n` means all. */
  function First(lines: seq<string>, n: int): (r: seq<string>)
    ensures |r| == (if 0 <= n < |lines| then n else |lines|) && r <= lines
  {
    if 0 <= n < |lines| then lines[..n] else lines
  }

  /** The last `n` lines; a negative `n` means all. */
  function Last(lines: seq<string>, n: int): (r: seq<string>)
    ensures |r| == (if 0 <= n < |lines| then n else |lines|) && r == lines[|lines| - |r|..]
  {
    if 0 <= n < |lines| then lines[|lines| - n..] else lines
  }

  /** What both print of the lines they choose. */
  method PrintClamped(chosen: seq<string>) returns (output: string, cut: bool)
    requires AreLines(chosen)
    ensures output == JoinLines(Clamped(chosen)) && SplitLines(output) == Clamped(chosen)
    ensures cut <==> Clamped(chosen) != chosen
  {
    ClampedAreLines(chosen);
    SplitOfJoinLines(Clamped(chosen));
    var clamped;
    clamped, cut := ClampLines(chosen);
    output := JoinLines(clamped);
  }

  lemma {:induction false} FirstAreLines(lines: seq<string>, n: int)
    requires AreLines(lines)
    ensures AreLines(First(lines, n)) && AreLines(Last(lines, n))
  {
  }

  lemma {:induction false} LossShows(all: seq<string>, chosen: seq<string>)
    requires chosen == all || |chosen| < |all|
    ensures Clamped(chosen) != all <==> |chosen| < |all| || Clamped(chosen) != chosen
  {
  }

  /** What `Head` and `Tail` do once the text is split; `n` lines are wanted. */
  method CutTo(all: seq<string>, n: int, fromEnd: bool) returns (output: string, truncated: bool)
    requires AreLines(all)
    ensures var chosen := if fromEnd then Last(all, n) else First(all, n);
      && output == JoinLines(Clamped(chosen)) && SplitLines(output) == Clamped(chosen)
      && (truncated <==> Clamped(chosen) != all)
  {
    var lines := all;
    FirstAreLines(lines, n);
    LossShows(all, if fromEnd then Last(all, n) else First(all, n));
    truncated := false;
    if n >= 0 && |lines| > n {
      lines := if fromEnd then lines[|lines| - n..] else lines[..n];
      truncated := true;
    }
    var cut;
    output, cut := PrintClamped(lines);
    truncated := truncated || cut;
  }

  /** `Head` reports a loss exactly when it loses a line or a part of one; what it gives splits
      into the first lines of the text, cut to the maximum length. */
  method Head(text: string, n: int) returns (output: string, truncated: bool)
    ensures output == JoinLines(Clamped(First(SplitLines(text), n)))
    ensures SplitLines(output) == Clamped(First(SplitLines(text), n))
    ensures truncated <==> SplitLines(output) != SplitLines(text)
  {
    SplitAreLines(text);
    output, truncated := CutTo(SplitLines(text), n, false);
  }

  method Tail(text: string, n: int) returns (output: string, truncated: bool)
    ensures output == JoinLines(Clamped(Last(SplitLines(text), n)))
    ensures SplitLines(output) == Clamped(Last(SplitLines(text), n))
    ensures truncated <==> SplitLines(output) != SplitLines(text)
  {
    SplitAreLines(text);
    output, truncated := CutTo(SplitLines(text), n, true);
  }

  /** The head and the rest make up all lines. */
  lemma {:induction false} HeadAndTail(lines: seq<string>, n: nat)
    requires n <= |lines|
    ensures Clamped(First(lines, n)) + Clamped(Last(lines, |lines| - n)) == Clamped(lines)
  {
  }
}
