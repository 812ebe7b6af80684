/** `cut` and `paste` (coreutils/text.go). */
module Columns {
  import opened Results
  import opened Strings
  import opened Lines

  // ----- cut

  /** The selected fields of a line, in the order they are asked for; a field that is not
      there is passed over. */
  function Selected(parts: seq<string>, fields: seq<int>): (r: seq<string>)
    requires forall i :: 0 <= i < |fields| ==> fields[i] >= 1
    ensures forall i :: 0 <= i < |r| ==> r[i] in parts
  {
    if fields == [] then []
    else
      var before, last := Selected(parts, fields[..|fields| - 1]), fields[|fields| - 1];
      if last <= |parts| then before + [parts[last - 1]] else before
  }

  /** Exactly the fields that are there are selected, in the order in which they are asked for. */
  lemma {:induction false} SelectedAreInOrder(parts: seq<string>, fields: seq<int>) returns (at: seq<nat>)
    requires forall i :: 0 <= i < |fields| ==> fields[i] >= 1
    ensures |at| == |Selected(parts, fields)| && forall i, j :: 0 <= i < j < |at| ==> at[i] < at[j]
    ensures forall i :: 0 <= i < |at| ==>
      at[i] < |fields| && fields[at[i]] <= |parts| && Selected(parts, fields)[i] == parts[fields[at[i]] - 1]
    ensures forall k :: 0 <= k < |fields| ==> (k in at <==> fields[k] <= |parts|)
  {
    at := [];
    if fields != [] {
      at := SelectedAreInOrder(parts, fields[..|fields| - 1]);
      if fields[|fields| - 1] <= |parts| { at := at + [|fields| - 1]; }
    }
  }

  predicate ArePositive(fields: seq<int>)
  {
    forall i :: 0 <= i < |fields| ==> fields[i] >= 1
  }

  function CutLine(line: string, delimiter: string, fields: seq<int>): string
    requires delimiter != "" && ArePositive(fields)
  {
    Join(Selected(Split(line, delimiter), fields), delimiter)
  }

  function CutLines(lines: seq<string>, delimiter: string, fields: seq<int>): (r: seq<string>)
    requires delimiter != "" && ArePositive(fields)
    ensures |r| == |lines| && forall i :: 0 <= i < |r| ==> r[i] == CutLine(lines[i], delimiter, fields)
  {
    seq(|lines|, i requires 0 <= i < |lines| => CutLine(lines[i], delimiter, fields))
  }

  /** The loop over the fields of one line. */
  method SelectFields(parts: seq<string>, fields: seq<int>) returns (selected: seq<string>)
    requires ArePositive(fields)
    ensures selected == Selected(parts, fields)
  {
    selected := [];
    for i := 0 to |fields|
      invariant selected == Selected(parts, fields[..i])
    {
      assert fields[..i + 1][..i] == fields[..i];
      if fields[i] <= |parts| {
        selected := selected + [parts[fields[i] - 1]];
      }
    }
    assert fields[..|fields|] == fields;
  }

  /** `Cut` fails exactly for an empty delimiter, no fields, or a field below one. */
  method Cut(text: string, delimiter: string, fields: seq<int>) returns (r: Result<string, string>)
    ensures r.Success? <==> delimiter != "" && fields != [] && ArePositive(fields)
    ensures r.Success? ==> r.value == JoinLines(CutLines(SplitLines(text), delimiter, fields))
    ensures r.Success? && '\n' !in delimiter ==> SplitLines(r.value) == CutLines(SplitLines(text), delimiter, fields)
  {
    if delimiter == "" {
      return Failure("delimiter must not be empty");
    }
    if |fields| == 0 {
      return Failure("at least one field is required");
    }
    for i := 0 to |fields|
      invariant ArePositive(fields[..i])
    {
      if fields[i] < 1 {
        return Failure("fields must be 1-based positive integers");
      }
    }
    var lines := SplitLines(text);
    var out: seq<string> := [];
    for i := 0 to |lines|
      invariant |out| == i && forall k :: 0 <= k < i ==> out[k] == CutLine(lines[k], delimiter, fields)
    {
      var selected := SelectFields(Split(lines[i], delimiter), fields);
      out := out + [Join(selected, delimiter)];
    }
    assert out == CutLines(lines, delimiter, fields);
    if '\n' !in delimiter {
      CutAreLines(text, delimiter, fields);
      SplitOfJoinLines(out);
    }
    return Success(JoinLines(out));
  }

  lemma {:induction false} PartsAreLines(line: string, delimiter: string)
    requires delimiter != "" && '\n' !in line
    ensures AreLines(Split(line, delimiter))
    decreases |line|
  {
    var i := Index(line, delimiter);
    if i >= 0 { PartsAreLines(line[i + |delimiter|..], delimiter); }
  }

  lemma {:induction false} JoinedIsLine(parts: seq<string>, delimiter: string)
    requires AreLines(parts) && '\n' !in delimiter
    ensures '\n' !in Join(parts, delimiter)
  {
    if |parts| > 1 { JoinedIsLine(parts[1..], delimiter); }
  }

  lemma {:induction false} CutAreLines(text: string, delimiter: string, fields: seq<int>)
    requires delimiter != "" && '\n' !in delimiter && ArePositive(fields)
    ensures AreLines(CutLines(SplitLines(text), delimiter, fields))
  {
    var lines := SplitLines(text);
    SplitAreLines(text);
    forall i | 0 <= i < |lines| ensures '\n' !in CutLines(lines, delimiter, fields)[i] {
      PartsAreLines(lines[i], delimiter);
      JoinedIsLine(Selected(Split(lines[i], delimiter), fields), delimiter);
    }
  }

  // ----- paste

  /** The cell of a column in a row; a column that is too short gives an empty one. */
  function Cell(column: seq<string>, row: nat): string
  {
    if row < |column| then column[row] else ""
  }

  function Row(columns: seq<seq<string>>, row: nat): (r: seq<string>)
    ensures |r| == |columns| && forall i :: 0 <= i < |r| ==> r[i] == Cell(columns[i], row)
  {
    seq(|columns|, i requires 0 <= i < |columns| => Cell(columns[i], row))
  }

  function Longest(columns: seq<seq<string>>): (n: nat)
    ensures forall i :: 0 <= i < |columns| ==> |columns[i]| <= n
    ensures n == 0 || exists i :: 0 <= i < |columns| && |columns[i]| == n
  {
    if columns == [] then 0
    else
      var before, last := Longest(columns[..|columns| - 1]), |columns[|columns| - 1]|;
      if last > before then last else before
  }

  function Columns(inputs: seq<string>): (r: seq<seq<string>>)
    ensures |r| == |inputs| && forall i :: 0 <= i < |r| ==> r[i] == SplitLines(inputs[i])
  {
    seq(|inputs|, i requires 0 <= i < |inputs| => SplitLines(inputs[i]))
  }

  function PastedLines(columns: seq<seq<string>>, delimiter: string): (r: seq<string>)
    ensures |r| == Longest(columns) && forall row :: 0 <= row < |r| ==> r[row] == Join(Row(columns, row), delimiter)
  {
    seq(Longest(columns), row requires 0 <= row < Longest(columns) => Join(Row(columns, row), delimiter))
  }

  /** The loop that splits the inputs and looks for the longest. */
  method SplitColumns(inputs: seq<string>) returns (columns: seq<seq<string>>, longest: nat)
    ensures columns == Columns(inputs) && longest == Longest(columns)
  {
    columns, longest := [], 0;
    for index := 0 to |inputs|
      invariant columns == Columns(inputs[..index]) && longest == Longest(columns)
    {
      var column := SplitLines(inputs[index]);
      OneMoreColumn(inputs, index, columns);
      columns := columns + [column];
      if |column| > longest {
        longest := |column|;
      }
    }
    assert inputs[..|inputs|] == inputs;
  }

  lemma {:induction false} OneMoreColumn(inputs: seq<string>, index: nat, columns: seq<seq<string>>)
    requires index < |inputs| && columns == Columns(inputs[..index])
    ensures Columns(inputs[..index + 1]) == columns + [SplitLines(inputs[index])]
    ensures var n := |SplitLines(inputs[index])|;
      Longest(columns + [SplitLines(inputs[index])]) == if n > Longest(columns) then n else Longest(columns)
  {
    var more := columns + [SplitLines(inputs[index])];
    assert more[..|more| - 1] == columns;
    forall i | 0 <= i < index + 1 ensures Columns(inputs[..index + 1])[i] == more[i] {
      assert inputs[..index + 1][i] == inputs[i];
      if i < index { assert inputs[..index][i] == inputs[i]; }
    }
  }

  /** The loop over the columns of one row. */
  method CollectRow(columns: seq<seq<string>>, row: nat) returns (cells: seq<string>)
    ensures cells == Row(columns, row)
  {
    cells := [];
    for column := 0 to |columns|
      invariant |cells| == column && forall i :: 0 <= i < column ==> cells[i] == Cell(columns[i], row)
    {
      if row < |columns[column]| {
        cells := cells + [columns[column][row]];
      } else {
        cells := cells + [""];
      }
    }
  }

  method Paste(inputs: seq<string>, delimiter: string) returns (r: Result<string, string>)
    ensures r.Success? <==> inputs != []
    ensures r.Success? ==> r.value == JoinLines(PastedLines(Columns(inputs), if delimiter == "" then "\t" else delimiter))
  {
    if |inputs| < 1 {
      return Failure("at least one input is required");
    }
    var glue := if delimiter == "" then "\t" else delimiter;
    var columns, longest := SplitColumns(inputs);
    var out := CollectRows(columns, longest, glue);
    return Success(JoinLines(out));
  }

  /** The loop over the rows. */
  method CollectRows(columns: seq<seq<string>>, longest: nat, delimiter: string) returns (out: seq<string>)
    requires longest == Longest(columns)
    ensures out == PastedLines(columns, delimiter)
  {
    out := [];
    for row := 0 to longest
      invariant |out| == row && forall i :: 0 <= i < row ==> out[i] == Join(Row(columns, i), delimiter)
    {
      var cells := CollectRow(columns, row);
      out := out + [Join(cells, delimiter)];
    }
  }

  // ----- cut against paste

  /** A column with empty lines added up to a length. */
  function Padded(column: seq<string>, n: nat): (r: seq<string>)
    ensures |r| == n && forall row :: 0 <= row < n ==> r[row] == Cell(column, row)
  {
    seq(n, row requires 0 <= row < n => Cell(column, row))
  }

  ghost predicate AreFreeOf(columns: seq<seq<string>>, c: char)
  {
    forall i :: 0 <= i < |columns| ==> FreeOf(columns[i], c)
  }

  lemma {:induction false} CutOfRow(columns: seq<seq<string>>, d: char, row: nat, i: nat)
    requires AreFreeOf(columns, d) && i < |columns|
    ensures CutLine(Join(Row(columns, row), [d]), [d], [i + 1]) == Cell(columns[i], row)
  {
    var cells := Row(columns, row);
    forall k | 0 <= k < |cells| ensures d !in cells[k] {
      assert FreeOf(columns[k], d);
    }
    SplitOfJoin(cells, d);
    SelectOne(cells, i);
  }

  lemma {:induction false} SelectOne(parts: seq<string>, i: nat)
    requires i < |parts|
    ensures Selected(parts, [i + 1]) == [parts[i]]
  {
    assert Selected(parts, [i + 1][..0]) == [];
  }

  lemma {:induction false} PastedAreLines(columns: seq<seq<string>>, d: char)
    requires AreFreeOf(columns, '\n') && d != '\n'
    ensures AreLines(PastedLines(columns, [d]))
  {
    forall row | 0 <= row < Longest(columns) ensures '\n' !in PastedLines(columns, [d])[row] {
      var cells := Row(columns, row);
      forall k | 0 <= k < |cells| ensures '\n' !in cells[k] {
        assert FreeOf(columns[k], '\n');
      }
      JoinedIsLine(cells, [d]);
    }
  }

  /** Cutting one field out of pasted columns gives that column back, padded with empty lines
      to the longest, when no cell holds the one-character delimiter. */
  lemma {:induction false} CutOfPaste(inputs: seq<string>, d: char, i: nat)
    requires i < |inputs| && d != '\n' && AreFreeOf(Columns(inputs), d)
    ensures var pasted := JoinLines(PastedLines(Columns(inputs), [d]));
      CutLines(SplitLines(pasted), [d], [i + 1]) == Padded(SplitLines(inputs[i]), Longest(Columns(inputs)))
  {
    var columns := Columns(inputs);
    forall k | 0 <= k < |columns| ensures FreeOf(columns[k], '\n') {
      SplitAreLines(inputs[k]);
    }
    PastedAreLines(columns, d);
    SplitOfJoinLines(PastedLines(columns, [d]));
    forall row | 0 <= row < Longest(columns)
      ensures CutLine(PastedLines(columns, [d])[row], [d], [i + 1]) == Cell(columns[i], row)
    {
      CutOfRow(columns, d, row, i);
    }
  }
}
