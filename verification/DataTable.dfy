/**
 PrintDataMap: a table with one line of headers and one line per data map, padded so that the columns align.
 The lines have one length, so every cell can be cut out of the text again.
 */
module DataTable {
  import opened Sequences
  import opened GoStrings

  type Row = map<string, string>

  /** A Go map gives the empty string for a missing key. */
  function Cell(row: Row, key: string): string {
    if key in row then row[key] else ""
  }

  function Cells(keys: seq<string>, row: Row): seq<string> {
    seq(|keys|, i requires 0 <= i < |keys| => Cell(row, keys[i]))
  }

  /** The cells of the k-th line: the headers, then the rows. */
  function CellsOf(keys: seq<string>, rows: seq<Row>, k: nat): seq<string>
    requires k <= |rows|
  {
    if k == 0 then keys else Cells(keys, rows[k - 1])
  }

  /** The width of a column: its longest text. */
  function Width(key: string, rows: seq<Row>): (w: nat)
    ensures w >= |key| && forall j :: 0 <= j < |rows| ==> w >= |Cell(rows[j], key)|
    ensures w == |key| || exists j :: 0 <= j < |rows| && w == |Cell(rows[j], key)|
  {
    if rows == [] then |key|
    else
      var others := Width(key, rows[..|rows| - 1]);
      var last := |Cell(rows[|rows| - 1], key)|;
      if last > others then last else others
  }

  function Widths(keys: seq<string>, rows: seq<Row>): seq<nat> {
    seq(|keys|, i requires 0 <= i < |keys| => Width(keys[i], rows))
  }

  predicate Fit(cells: seq<string>, widths: seq<nat>) {
    |cells| == |widths| && forall i :: 0 <= i < |cells| ==> |cells[i]| <= widths[i]
  }

  /** The cells of all lines. */
  function AllCells(keys: seq<string>, rows: seq<Row>): seq<seq<string>> {
    seq(|rows| + 1, k requires 0 <= k <= |rows| => CellsOf(keys, rows, k))
  }

  predicate AllFit(lines: seq<seq<string>>, widths: seq<nat>) {
    forall k :: 0 <= k < |lines| ==> Fit(lines[k], widths)
  }

  /** Padding is never negative. */
  lemma CellsFit(keys: seq<string>, rows: seq<Row>)
    ensures AllFit(AllCells(keys, rows), Widths(keys, rows))
  {
  }

  // ---------- The text ----------

  const BAR := " | "
  const END := "\n"

  function Spaces(n: nat): string {
    seq(n, _ => ' ')
  }

  /** What is written for one cell. */
  function FieldChunks(cell: string, width: nat): seq<string>
    requires |cell| <= width
  {
    [cell, Spaces(width - |cell| + 1), BAR]
  }

  function LineChunks(cells: seq<string>, widths: seq<nat>): seq<string>
    requires Fit(cells, widths)
  {
    if cells == [] then [END] else FieldChunks(cells[0], widths[0]) + LineChunks(cells[1..], widths[1..])
  }

  function LinesChunks(lines: seq<seq<string>>, widths: seq<nat>): seq<string>
    requires AllFit(lines, widths)
  {
    if lines == [] then [] else LineChunks(lines[0], widths) + LinesChunks(lines[1..], widths)
  }

  function TableChunks(keys: seq<string>, rows: seq<Row>): seq<string> {
    CellsFit(keys, rows);
    LinesChunks(AllCells(keys, rows), Widths(keys, rows))
  }

  function Table(keys: seq<string>, rows: seq<Row>): string {
    Flatten(TableChunks(keys, rows))
  }

  // ---------- Printing ----------

  method GetWhitespaceStr(size: int) returns (whiteSpaceStr: string)
    ensures whiteSpaceStr == Spaces(if size < 0 then 0 else size)
  {
    whiteSpaceStr := "";
    var i := 0;
    while i < size
      invariant 0 <= i && (i <= size || i == 0) && whiteSpaceStr == Spaces(i)
      decreases size - i
    {
      whiteSpaceStr := whiteSpaceStr + " ";
      i := i + 1;
    }
  }

  /** `before` and as many of the chunks as the limit allows; `ok` if it allows them all. */
  predicate Wrote(limit: nat, before: seq<string>, chunks: seq<string>, after: seq<string>, ok: bool) {
    && after == (before + chunks)[..Min(limit, |before| + |chunks|)]
    && (ok <==> |before| + |chunks| <= limit)
  }

  /** A writer that takes `limit` strings and then fails. */
  class Writer {
    var output: seq<string>
    const limit: nat

    constructor (limit: nat)
      ensures this.limit == limit && output == []
    {
      this.limit, output := limit, [];
    }

    method WriteString(s: string) returns (ok: bool)
      requires |output| <= limit
      modifies this
      ensures Wrote(limit, old(output), [s], output, ok) && |output| <= limit
    {
      ok := |output| < limit;
      if ok {
        output := output + [s];
      }
    }
  }

  lemma WroteMore(limit: nat, before: seq<string>, chunks: seq<string>, mid: seq<string>, more: seq<string>,
                  after: seq<string>, ok: bool)
    requires Wrote(limit, before, chunks, mid, true) && Wrote(limit, mid, more, after, ok)
    ensures Wrote(limit, before, chunks + more, after, ok)
  {
    assert before + (chunks + more) == mid + more;
  }

  lemma WroteLess(limit: nat, before: seq<string>, chunks: seq<string>, after: seq<string>, more: seq<string>)
    requires |before| <= limit && Wrote(limit, before, chunks, after, false)
    ensures Wrote(limit, before, chunks + more, after, false)
  {
    assert before + (chunks + more) == (before + chunks) + more;
  }

  /** The next chunks were written behind `done`, or the writer failed in them, before the rest. */
  lemma WroteNext(limit: nat, before: seq<string>, done: seq<string>, mid: seq<string>, next: seq<string>,
                  after: seq<string>, ok: bool, rest: seq<string>)
    requires |before| <= limit && Wrote(limit, before, done, mid, true) && Wrote(limit, mid, next, after, ok)
    ensures ok ==> Wrote(limit, before, done + next, after, true)
    ensures !ok ==> Wrote(limit, before, done + (next + rest), after, false)
    ensures done + (next + rest) == (done + next) + rest
  {
    WroteMore(limit, before, done, mid, next, after, ok);
    if !ok {
      WroteLess(limit, before, done + next, after, rest);
    }
    ConcatAssoc(done, next, rest);
  }

  method WriteField(writer: Writer, cell: string, width: nat) returns (ok: bool)
    requires |writer.output| <= writer.limit && |cell| <= width
    modifies writer
    ensures Wrote(writer.limit, old(writer.output), FieldChunks(cell, width), writer.output, ok)
    ensures |writer.output| <= writer.limit
  {
    ghost var before := writer.output;
    var padding := GetWhitespaceStr(width - |cell| + 1);
    ok := writer.WriteString(cell);
    if !ok {
      WroteLess(writer.limit, before, [cell], writer.output, [padding, BAR]);
      assert [cell] + [padding, BAR] == FieldChunks(cell, width);
      return;
    }
    ghost var mid := writer.output;
    ok := writer.WriteString(padding);
    WroteMore(writer.limit, before, [cell], mid, [padding], writer.output, ok);
    if !ok {
      WroteLess(writer.limit, before, [cell] + [padding], writer.output, [BAR]);
      assert [cell] + [padding] + [BAR] == FieldChunks(cell, width);
      return;
    }
    mid := writer.output;
    ok := writer.WriteString(BAR);
    WroteMore(writer.limit, before, [cell] + [padding], mid, [BAR], writer.output, ok);
    assert [cell] + [padding] + [BAR] == FieldChunks(cell, width);
  }

  method WriteLine(writer: Writer, cells: seq<string>, widths: seq<nat>) returns (ok: bool)
    requires |writer.output| <= writer.limit && Fit(cells, widths)
    modifies writer
    ensures Wrote(writer.limit, old(writer.output), LineChunks(cells, widths), writer.output, ok)
    ensures |writer.output| <= writer.limit
  {
    ghost var before, done, whole := writer.output, [], LineChunks(cells, widths);
    assert [] + whole == whole;
    assert cells[0..] == cells && widths[0..] == widths;
    for i := 0 to |cells|
      invariant |writer.output| <= writer.limit
      invariant Wrote(writer.limit, before, done, writer.output, true)
      invariant done + LineChunks(cells[i..], widths[i..]) == whole
    {
      ghost var mid, field := writer.output, FieldChunks(cells[i], widths[i]);
      ghost var rest := LineChunks(cells[i + 1..], widths[i + 1..]);
      LineChunksNext(cells, widths, i);
      ok := WriteField(writer, cells[i], widths[i]);
      WroteNext(writer.limit, before, done, mid, field, writer.output, ok, rest);
      if !ok {
        return;
      }
      done := done + field;
    }
    ghost var mid := writer.output;
    ok := writer.WriteString(END);
    WroteMore(writer.limit, before, done, mid, [END], writer.output, ok);
  }

  lemma LineChunksNext(cells: seq<string>, widths: seq<nat>, i: nat)
    requires Fit(cells, widths) && i < |cells|
    ensures LineChunks(cells[i..], widths[i..])
         == FieldChunks(cells[i], widths[i]) + LineChunks(cells[i + 1..], widths[i + 1..])
  {
    assert cells[i..][1..] == cells[i + 1..] && widths[i..][1..] == widths[i + 1..];
  }

  method MaxSize(key: string, dataMaps: seq<Row>) returns (maxSize: nat)
    ensures maxSize == Width(key, dataMaps)
  {
    maxSize := |key|;
    for j := 0 to |dataMaps|
      invariant maxSize == Width(key, dataMaps[..j])
    {
      assert dataMaps[..j + 1][..j] == dataMaps[..j];
      if |Cell(dataMaps[j], key)| > maxSize {
        maxSize := |Cell(dataMaps[j], key)|;
      }
    }
    assert dataMaps[..|dataMaps|] == dataMaps;
  }

  method ColumnWidths(keys: seq<string>, dataMaps: seq<Row>) returns (widths: seq<nat>)
    ensures widths == Widths(keys, dataMaps)
  {
    var maxStringSizeMap: map<string, nat> := map[];
    for i := 0 to |keys|
      invariant forall j :: 0 <= j < i ==>
                  keys[j] in maxStringSizeMap && maxStringSizeMap[keys[j]] == Width(keys[j], dataMaps)
    {
      var maxSize := MaxSize(keys[i], dataMaps);
      maxStringSizeMap := maxStringSizeMap[keys[i] := maxSize];
    }
    widths := seq(|keys|, i requires 0 <= i < |keys| && keys[i] in maxStringSizeMap => maxStringSizeMap[keys[i]]);
  }

  lemma LinesChunksNext(lines: seq<seq<string>>, widths: seq<nat>, k: nat)
    requires AllFit(lines, widths) && k < |lines|
    ensures LinesChunks(lines[k..], widths) == LineChunks(lines[k], widths) + LinesChunks(lines[k + 1..], widths)
  {
    assert lines[k..][1..] == lines[k + 1..];
  }

  /** The lines of the rows, behind the header's. */
  method WriteRows(keys: seq<string>, dataMaps: seq<Row>, widths: seq<nat>, writer: Writer) returns (ok: bool)
    requires |writer.output| <= writer.limit && AllFit(AllCells(keys, dataMaps), widths)
    modifies writer
    ensures Wrote(writer.limit, old(writer.output), LinesChunks(AllCells(keys, dataMaps)[1..], widths),
                  writer.output, ok)
  {
    ghost var before, done, lines := writer.output, [], AllCells(keys, dataMaps);
    assert [] + LinesChunks(lines[1..], widths) == LinesChunks(lines[1..], widths);
    for k := 0 to |dataMaps|
      invariant |writer.output| <= writer.limit
      invariant Wrote(writer.limit, before, done, writer.output, true)
      invariant done + LinesChunks(lines[k + 1..], widths) == LinesChunks(lines[1..], widths)
    {
      ghost var mid, line, rest := writer.output, LineChunks(lines[k + 1], widths), LinesChunks(lines[k + 2..], widths);
      LinesChunksNext(lines, widths, k + 1);
      ok := WriteLine(writer, Cells(keys, dataMaps[k]), widths);
      WroteNext(writer.limit, before, done, mid, line, writer.output, ok, rest);
      if !ok {
        return;
      }
      done := done + line;
    }
    assert lines[|dataMaps| + 1..] == [] && done + [] == done;
    ok := true;
  }

  /** Writes the table; if the writer fails, the table up to the string that was refused. */
  method PrintDataMap(keys: seq<string>, dataMaps: seq<Row>, writer: Writer) returns (ok: bool)
    requires |writer.output| <= writer.limit
    modifies writer
    ensures Wrote(writer.limit, old(writer.output), TableChunks(keys, dataMaps), writer.output, ok)
  {
    var widths := ColumnWidths(keys, dataMaps);
    CellsFit(keys, dataMaps);
    ghost var before, lines := writer.output, AllCells(keys, dataMaps);
    LinesChunksNext(lines, widths, 0);
    assert lines[0] == keys && lines[0..] == lines;
    ok := WriteLine(writer, keys, widths);
    ghost var mid, rest := writer.output, LinesChunks(lines[1..], widths);
    if !ok {
      WroteLess(writer.limit, before, LineChunks(keys, widths), writer.output, rest);
      return;
    }
    ok := WriteRows(keys, dataMaps, widths, writer);
    WroteMore(writer.limit, before, LineChunks(keys, widths), mid, rest, writer.output, ok);
  }

  // ---------- Layout ----------

  lemma {:induction false} FlattenConcat(a: seq<string>, b: seq<string>)
    ensures Flatten(a + b) == Flatten(a) + Flatten(b)
  {
    if a == [] {
      assert a + b == b;
    } else {
      FlattenConcat(a[1..], b);
      assert (a + b)[1..] == a[1..] + b && (a + b)[0] == a[0];
      ConcatAssoc(a[0], Flatten(a[1..]), Flatten(b));
    }
  }

  function Field(cell: string, width: nat): (s: string)
    requires |cell| <= width
    ensures |s| == width + 4
  {
    cell + Spaces(width - |cell| + 1) + BAR
  }

  function Line(cells: seq<string>, widths: seq<nat>): string
    requires Fit(cells, widths)
  {
    if cells == [] then END else Field(cells[0], widths[0]) + Line(cells[1..], widths[1..])
  }

  lemma {:induction false} LineIsChunks(cells: seq<string>, widths: seq<nat>)
    requires Fit(cells, widths)
    ensures Flatten(LineChunks(cells, widths)) == Line(cells, widths)
  {
    if cells == [] {
      assert END + "" == END;
    } else {
      LineIsChunks(cells[1..], widths[1..]);
      var cell, padding := cells[0], Spaces(widths[0] - |cells[0]| + 1);
      FlattenConcat([cell, padding, BAR], LineChunks(cells[1..], widths[1..]));
      FlattenThree(cell, padding, BAR);
    }
  }

  lemma FlattenThree(a: string, b: string, c: string)
    ensures Flatten([a, b, c]) == a + b + c
  {
    assert [a, b, c][1..] == [b, c] && [b, c][1..] == [c] && [c][1..] == [];
    assert Flatten([c]) == c + "" == c;
    assert Flatten([b, c]) == b + c;
    ConcatAssoc(a, b, c);
  }

  /** Where the i-th column starts, on every line. */
  function Offset(widths: seq<nat>, i: nat): nat
    requires i <= |widths|
  {
    if i == 0 then 0 else widths[0] + 4 + Offset(widths[1..], i - 1)
  }

  /** The length of every line: the columns with their bars, and the newline. */
  function LineLength(widths: seq<nat>): nat {
    Offset(widths, |widths|) + 1
  }

  /** Every line has this length, whatever is in it, and has the i-th cell at the i-th offset, padded to the
      column's width. */
  lemma {:induction false} LineLayout(cells: seq<string>, widths: seq<nat>, i: nat)
    requires Fit(cells, widths) && i < |cells|
    ensures |Line(cells, widths)| == LineLength(widths)
    ensures Offset(widths, i) + widths[i] <= LineLength(widths)
    ensures Line(cells, widths)[Offset(widths, i)..Offset(widths, i) + widths[i]]
         == cells[i] + Spaces(widths[i] - |cells[i]|)
    decreases |cells|
  {
    var field, rest := Field(cells[0], widths[0]), Line(cells[1..], widths[1..]);
    LineHasLength(cells[1..], widths[1..]);
    if i == 0 {
      FieldStart(cells[0], widths[0], rest);
    } else {
      LineLayout(cells[1..], widths[1..], i - 1);
      var from := Offset(widths[1..], i - 1);
      SliceOfRest(field, rest, from, from + widths[i]);
    }
  }

  lemma FieldStart(cell: string, width: nat, rest: string)
    requires |cell| <= width
    ensures (Field(cell, width) + rest)[0..width] == cell + Spaces(width - |cell|)
  {
  }

  lemma {:induction false} LineHasLength(cells: seq<string>, widths: seq<nat>)
    requires Fit(cells, widths)
    ensures |Line(cells, widths)| == LineLength(widths)
  {
    if cells != [] {
      LineHasLength(cells[1..], widths[1..]);
    }
  }

  /** Lines of one length are found again at the multiples of the length. */
  lemma {:induction false} LinesLayout(lines: seq<seq<string>>, widths: seq<nat>, size: nat, k: nat)
    requires AllFit(lines, widths) && k < |lines| && size == LineLength(widths)
    ensures 0 <= k * size <= k * size + size <= |Flatten(LinesChunks(lines, widths))|
    ensures Flatten(LinesChunks(lines, widths))[k * size..k * size + size] == Line(lines[k], widths)
    decreases k
  {
    if k > 0 {
      LinesLayout(lines[1..], widths, size, k - 1);
      NextLineLayout(lines, widths, size, k);
    } else {
      FirstLineLayout(lines, widths);
    }
  }

  lemma NextLineLayout(lines: seq<seq<string>>, widths: seq<nat>, size: nat, k: nat)
    requires AllFit(lines, widths) && 0 < k < |lines| && size == LineLength(widths)
    requires 0 <= (k - 1) * size <= (k - 1) * size + size <= |Flatten(LinesChunks(lines[1..], widths))|
    requires Flatten(LinesChunks(lines[1..], widths))[(k - 1) * size..(k - 1) * size + size] == Line(lines[k], widths)
    ensures 0 <= k * size <= k * size + size <= |Flatten(LinesChunks(lines, widths))|
    ensures Flatten(LinesChunks(lines, widths))[k * size..k * size + size] == Line(lines[k], widths)
  {
    TextCons(lines, widths);
    NextLine(Line(lines[0], widths), Flatten(LinesChunks(lines[1..], widths)), k, size);
    MulCons(k, size);
  }

  lemma FirstLineLayout(lines: seq<seq<string>>, widths: seq<nat>)
    requires AllFit(lines, widths) && lines != []
    ensures var size := LineLength(widths);
      && size <= |Flatten(LinesChunks(lines, widths))|
      && Flatten(LinesChunks(lines, widths))[0..size] == Line(lines[0], widths)
  {
    TextCons(lines, widths);
    FirstLine(Line(lines[0], widths), Flatten(LinesChunks(lines[1..], widths)));
  }

  lemma FirstLine(first: string, rest: string)
    ensures (first + rest)[0..|first|] == first
  {
  }

  lemma NextLine(first: string, rest: string, k: nat, size: nat)
    requires |first| == size && k > 0 && 0 <= (k - 1) * size && (k - 1) * size + size <= |rest|
    ensures k * size + size <= |first + rest|
    ensures (first + rest)[k * size..k * size + size] == rest[(k - 1) * size..(k - 1) * size + size]
  {
    MulCons(k, size);
    SliceOfRest(first, rest, (k - 1) * size, (k - 1) * size + size);
  }

  lemma TextCons(lines: seq<seq<string>>, widths: seq<nat>)
    requires AllFit(lines, widths) && lines != []
    ensures Flatten(LinesChunks(lines, widths)) == Line(lines[0], widths) + Flatten(LinesChunks(lines[1..], widths))
    ensures |Line(lines[0], widths)| == LineLength(widths)
  {
    LineIsChunks(lines[0], widths);
    FlattenConcat(LineChunks(lines[0], widths), LinesChunks(lines[1..], widths));
    LineHasLength(lines[0], widths);
  }

  lemma {:induction false} LinesLength(lines: seq<seq<string>>, widths: seq<nat>)
    requires AllFit(lines, widths)
    ensures |Flatten(LinesChunks(lines, widths))| == |lines| * LineLength(widths)
  {
    if lines != [] {
      TextCons(lines, widths);
      LinesLength(lines[1..], widths);
      MulCons(|lines|, LineLength(widths));
    }
  }

  lemma MulCons(n: nat, size: nat)
    requires n > 0
    ensures n * size == size + (n - 1) * size && (n - 1) * size >= 0
  {
  }

  lemma SliceOfRest(first: string, rest: string, from: nat, to: nat)
    requires from <= to <= |rest|
    ensures (first + rest)[|first| + from..|first| + to] == rest[from..to]
  {
  }

  lemma SliceOfSlice(text: string, start: nat, end: nat, from: nat, to: nat)
    requires start <= end <= |text| && from <= to <= end - start
    ensures text[start..end][from..to] == text[start + from..start + to]
  {
    var a, b := text[start..end][from..to], text[start + from..start + to];
    assert |a| == |b| && forall i :: 0 <= i < |a| ==> a[i] == b[i];
  }

  /** The table has a line for the headers and one for each row, all of one length. */
  lemma TableLayout(keys: seq<string>, rows: seq<Row>, k: nat)
    requires k <= |rows|
    ensures Fit(CellsOf(keys, rows, k), Widths(keys, rows))
    ensures var text, size := Table(keys, rows), LineLength(Widths(keys, rows));
      && |text| == (|rows| + 1) * size
      && 0 <= k * size <= k * size + size <= |text|
      && text[k * size..k * size + size] == Line(CellsOf(keys, rows, k), Widths(keys, rows))
  {
    CellsFit(keys, rows);
    var lines, widths := AllCells(keys, rows), Widths(keys, rows);
    LinesLength(lines, widths);
    LinesLayout(lines, widths, LineLength(widths), k);
  }

  // ---------- Reading the table back ----------

  function DropPadding(s: string): string {
    if s != "" && s[|s| - 1] == ' ' then DropPadding(s[..|s| - 1]) else s
  }

  predicate EndsInSpace(s: string) {
    s != "" && s[|s| - 1] == ' '
  }

  lemma {:induction false} DropPaddingKeeps(s: string, n: nat)
    ensures DropPadding(s + Spaces(n)) == DropPadding(s)
  {
    if n == 0 {
      assert s + Spaces(0) == s;
    } else {
      DropPaddingKeeps(s, n - 1);
      assert (s + Spaces(n))[..|s + Spaces(n)| - 1] == s + Spaces(n - 1);
    }
  }

  lemma {:induction false} DropPaddingIff(s: string)
    ensures |DropPadding(s)| <= |s| && (DropPadding(s) == s <==> !EndsInSpace(s))
  {
    if EndsInSpace(s) {
      DropPaddingIff(s[..|s| - 1]);
    }
  }

  function ReadAt(text: string, from: nat, width: nat): string {
    if from + width <= |text| then DropPadding(text[from..from + width]) else ""
  }

  /** The text between the column's offset and its width, on the k-th line, without padding. */
  function ReadCell(text: string, widths: seq<nat>, k: nat, i: nat): string
    requires i < |widths|
  {
    ReadAt(text, k * LineLength(widths) + Offset(widths, i), widths[i])
  }

  lemma PaddingDroppedIff(padded: string, cell: string, n: nat)
    requires padded == cell + Spaces(n)
    ensures DropPadding(padded) == cell <==> !EndsInSpace(cell)
  {
    DropPaddingKeeps(cell, n);
    DropPaddingIff(cell);
  }

  /** Reading a padded cell of a line gives the cell exactly if it does not end in a space. */
  lemma PaddedReadBack(text: string, line: string, start: nat, from: nat, cell: string, width: nat)
    requires |cell| <= width && start + |line| <= |text| && text[start..start + |line|] == line
    requires from + width <= |line| && line[from..from + width] == cell + Spaces(width - |cell|)
    ensures ReadAt(text, start + from, width) == cell <==> !EndsInSpace(cell)
  {
    SliceOfSlice(text, start, start + |line|, from, from + width);
    PaddingDroppedIff(text[start + from..start + from + width], cell, width - |cell|);
  }

  lemma LineReadBack(text: string, cells: seq<string>, widths: seq<nat>, size: nat, k: nat, i: nat)
    requires Fit(cells, widths) && i < |cells| && size == LineLength(widths) == |Line(cells, widths)|
    requires 0 <= k * size && k * size + size <= |text| && text[k * size..k * size + size] == Line(cells, widths)
    ensures ReadCell(text, widths, k, i) == cells[i] <==> !EndsInSpace(cells[i])
  {
    LineLayout(cells, widths, i);
    PaddedReadBack(text, Line(cells, widths), k * size, Offset(widths, i), cells[i], widths[i]);
  }

  /** From the text and the widths alone, every header and every cell is read back, exactly if it does not end
      in a space. */
  lemma ReadBackIff(keys: seq<string>, rows: seq<Row>, k: nat, i: nat)
    requires k <= |rows| && i < |keys|
    ensures var cell := CellsOf(keys, rows, k)[i];
      ReadCell(Table(keys, rows), Widths(keys, rows), k, i) == cell <==> !EndsInSpace(cell)
  {
    var cells, widths, text := CellsOf(keys, rows, k), Widths(keys, rows), Table(keys, rows);
    TableLayout(keys, rows, k);
    LineHasLength(cells, widths);
    LineReadBack(text, cells, widths, LineLength(widths), k, i);
  }

  // ---------- The text in plain terms ----------

  predicate OneLine(s: string) {
    forall k :: 0 <= k < |s| ==> s[k] != '\n'
  }

  /** The only newline of a line, if its cells have none, is its last character. */
  lemma {:induction false} LineEnds(cells: seq<string>, widths: seq<nat>)
    requires Fit(cells, widths) && forall i :: 0 <= i < |cells| ==> OneLine(cells[i])
    ensures Line(cells, widths) != ""
    ensures forall p :: 0 <= p < |Line(cells, widths)| ==>
              (Line(cells, widths)[p] == '\n' <==> p == |Line(cells, widths)| - 1)
    decreases |cells|
  {
    if cells != [] {
      LineEnds(cells[1..], widths[1..]);
      FieldIsOneLine(cells[0], widths[0]);
    }
  }

  lemma FieldIsOneLine(cell: string, width: nat)
    requires |cell| <= width && OneLine(cell)
    ensures OneLine(Field(cell, width))
  {
  }

  /** Each column ends in a space and a bar, right behind its width. */
  lemma {:induction false} ColumnEnds(cells: seq<string>, widths: seq<nat>, i: nat)
    requires Fit(cells, widths) && i < |cells|
    ensures Offset(widths, i) + widths[i] + 4 < |Line(cells, widths)|
    ensures Line(cells, widths)[Offset(widths, i) + widths[i]..Offset(widths, i) + widths[i] + 4] == "  | "
    decreases |cells|
  {
    var field, rest := Field(cells[0], widths[0]), Line(cells[1..], widths[1..]);
    LineHasLength(cells[1..], widths[1..]);
    if i == 0 {
      FieldEnd(cells[0], widths[0], rest);
    } else {
      ColumnEnds(cells[1..], widths[1..], i - 1);
      var from := Offset(widths[1..], i - 1) + widths[i];
      SliceOfRest(field, rest, from, from + 4);
    }
  }

  lemma FieldEnd(cell: string, width: nat, rest: string)
    requires |cell| <= width
    ensures (Field(cell, width) + rest)[width..width + 4] == "  | "
  {
    var field := Field(cell, width);
    assert field == cell + Spaces(width - |cell| + 1) + " | ";
    assert field[width] == ' ' && field[width + 1] == ' ' && field[width + 2] == '|' && field[width + 3] == ' ';
    assert (field + rest)[width..width + 4] == field[width..width + 4];
  }

  /** What stands in the table: the headers, or the values of the maps; nothing for a missing key. */
  lemma CellInPlainTerms(keys: seq<string>, rows: seq<Row>, k: nat, i: nat)
    requires k <= |rows| && i < |keys|
    ensures CellsOf(keys, rows, k)[i]
         == if k == 0 then keys[i] else if keys[i] in rows[k - 1] then rows[k - 1][keys[i]] else ""
  {
  }

  /** The line has its only newline at its end, and at `from` the cell, padded with spaces up to the width, and two
      spaces around a bar. */
  predicate Reads(line: string, from: nat, width: nat, cell: string) {
    && (forall p :: 0 <= p < |line| ==> (line[p] == '\n' <==> p == |line| - 1))
    && |cell| <= width && from + width + 4 < |line|
    && line[from..from + width] == cell + seq(width - |cell|, _ => ' ')
    && line[from + width..from + width + 4] == "  | "
  }

  lemma LineReads(cells: seq<string>, widths: seq<nat>, i: nat)
    requires Fit(cells, widths) && i < |cells| && forall j :: 0 <= j < |cells| ==> OneLine(cells[j])
    ensures Reads(Line(cells, widths), Offset(widths, i), widths[i], cells[i])
  {
    LineEnds(cells, widths);
    LineLayout(cells, widths, i);
    ColumnEnds(cells, widths, i);
    assert Spaces(widths[i] - |cells[i]|) == seq(widths[i] - |cells[i]|, _ => ' ');
  }

  lemma CellsAreOneLine(keys: seq<string>, rows: seq<Row>, k: nat)
    requires k <= |rows|
    requires forall key :: key in keys ==> OneLine(key)
    requires forall row, key :: row in rows && key in row ==> OneLine(row[key])
    ensures forall j :: 0 <= j < |keys| ==> OneLine(CellsOf(keys, rows, k)[j])
  {
    forall j | 0 <= j < |keys|
      ensures OneLine(CellsOf(keys, rows, k)[j])
    {
      CellInPlainTerms(keys, rows, k, j);
      assert keys[j] in keys && (k > 0 ==> rows[k - 1] in rows);
    }
  }

  /** The printed text, line by line: the k-th line reads as the headers, or as the values of the k-th map, with
      nothing for a missing key. */
  lemma PrintedText(keys: seq<string>, rows: seq<Row>, k: nat, i: nat)
    requires k <= |rows| && i < |keys|
    requires forall key :: key in keys ==> OneLine(key)
    requires forall row, key :: row in rows && key in row ==> OneLine(row[key])
    ensures var text, size := Table(keys, rows), LineLength(Widths(keys, rows));
      && |text| == (|rows| + 1) * size
      && 0 <= k * size <= k * size + size <= |text|
      && Reads(text[k * size..k * size + size], Offset(Widths(keys, rows), i), Widths(keys, rows)[i],
               if k == 0 then keys[i] else if keys[i] in rows[k - 1] then rows[k - 1][keys[i]] else "")
  {
    TableLayout(keys, rows, k);
    CellInPlainTerms(keys, rows, k, i);
    CellsAreOneLine(keys, rows, k);
    LineReads(CellsOf(keys, rows, k), Widths(keys, rows), i);
  }
}
