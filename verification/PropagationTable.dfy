/**
 The propagation table of an issue body (`agricola/planner.py`). The body is text; its table is
 a map from targets to rows, and the edits below act on that map.
 */
module PropagationTable {
  import opened Wrappers
  import opened TextLines
  import opened Dicts

  const TABLE_START := "<!-- agricola:propagation-table:start -->"
  const TABLE_END := "<!-- agricola:propagation-table:end -->"

  // ---------------------------------------------------------------- rows

  predicate IsNameChar(c: char) {
    'a' <= c <= 'z' || '0' <= c <= '9' || c == '-'
  }

  /** `TargetName`. */
  predicate IsTarget(t: string) {
    t != "" && 'a' <= t[0] <= 'z' && forall i :: 0 <= i < |t| ==> IsNameChar(t[i])
  }

  function RowPrefix(t: string): string {
    "| `" + t + "` |"
  }

  /** `_table_row`. */
  function TableRow(t: string, mode: string, status: string, pr: string): string {
    RowPrefix(t) + (" " + mode + " | " + status + " | " + pr + " |")
  }

  function NameRun(s: string): (n: nat)
    ensures n <= |s| && forall i :: 0 <= i < n ==> IsNameChar(s[i])
    ensures n < |s| ==> !IsNameChar(s[n])
  {
    if s != "" && IsNameChar(s[0]) then 1 + NameRun(s[1..]) else 0
  }

  /** The target whose row `line` is. */
  function RowTarget(line: string): (r: Option<string>)
    ensures r.Some? ==> IsTarget(r.value) && RowPrefix(r.value) <= line
  {
    if !("| `" <= line) then None
    else
      var t := line[3..][..NameRun(line[3..])];
      if IsTarget(t) && RowPrefix(t) <= line then Some(t) else None
  }

  /** For target names, the test the program makes on a line is `RowTarget`. */
  lemma RowTargetExact(line: string, t: string)
    requires IsTarget(t)
    ensures RowPrefix(t) <= line <==> RowTarget(line) == Some(t)
  {
    if RowPrefix(t) <= line {
      var rest := line[3..];
      assert line[..|RowPrefix(t)|] == RowPrefix(t);
      assert forall i :: 0 <= i < |t| ==> rest[i] == RowPrefix(t)[3 + i];
      assert rest[|t|] == RowPrefix(t)[3 + |t|] == '`';
      assert NameRun(rest) == |t|;
      assert rest[..|t|] == t;
    }
  }

  // ---------------------------------------------------------------- the edit

  function FirstIndex(lines: seq<string>, x: string, from: nat): (r: Option<nat>)
    requires from <= |lines|
    ensures r.Some? ==> from <= r.value < |lines| && lines[r.value] == x
    ensures r.Some? ==> forall i :: from <= i < r.value ==> lines[i] != x
    ensures r.None? ==> forall i :: from <= i < |lines| ==> lines[i] != x
    decreases |lines| - from
  {
    if from == |lines| then None
    else if lines[from] == x then Some(from)
    else FirstIndex(lines, x, from + 1)
  }

  /** The first replacement whose row prefix starts the line. */
  function ReplaceRow(line: string, d: Dict): string {
    if d == [] then line
    else if RowPrefix(d[0].0) <= line then d[0].1
    else ReplaceRow(line, d[1..])
  }

  function ReplaceRows(rows: seq<string>, d: Dict): (r: seq<string>)
    ensures |r| == |rows| && forall i :: 0 <= i < |rows| ==> r[i] == ReplaceRow(rows[i], d)
  {
    seq(|rows|, i requires 0 <= i < |rows| => ReplaceRow(rows[i], d))
  }

  /** Start and end marker of the table, as `_replace_propagation_rows` finds them. */
  predicate HasTable(lines: seq<string>, start: nat, end: nat) {
    && start < end < |lines|
    && FirstIndex(lines, TABLE_START, 0) == Some(start)
    && FirstIndex(lines, TABLE_END, start) == Some(end)
  }

  /** `_replace_propagation_rows`; the failure is the `ValueError` of `lines.index`. */
  function Replaced(body: string, d: Dict): Result<string> {
    var lines := SplitLines(body);
    if TABLE_START !in lines || TABLE_END !in lines then Success(body)
    else
      var start := FirstIndex(lines, TABLE_START, 0).value;
      match FirstIndex(lines, TABLE_END, start)
      case None => Failure("ValueError")
      case Some(end) =>
        Success(RStrip(Join(EditLines(lines, d, start, end))) + "\n")
  }

  /** The inner loop: the first replacement that applies ends it. */
  method FirstReplacement(line: string, d: Dict) returns (row: string)
    ensures row == ReplaceRow(line, d)
  {
    for k := 0 to |d|
      invariant ReplaceRow(line, d) == ReplaceRow(line, d[k..])
    {
      assert d[k..][0] == d[k] && d[k..][1..] == d[k + 1..];
      if RowPrefix(d[k].0) <= line {
        return d[k].1;
      }
    }
    assert d[|d|..] == [];
    return line;
  }

  /** Markers found in the order start, end are two different lines. */
  lemma MarkersApart(lines: seq<string>, start: nat, end: nat)
    requires FirstIndex(lines, TABLE_START, 0) == Some(start) && start <= |lines|
    requires FirstIndex(lines, TABLE_END, start) == Some(end)
    ensures start < end < |lines|
  {
    assert lines[start] == TABLE_START && lines[end] == TABLE_END;
  }

  /** Rows `start + 1` to `index` are edited. */
  ghost predicate EditedUpTo(was: seq<string>, lines: seq<string>, d: Dict, start: nat, index: nat) {
    && |lines| == |was|
    && (forall i :: 0 <= i < |was| && !(start < i < index) ==> lines[i] == was[i])
    && (forall i :: start < i < index && i < |was| ==> lines[i] == ReplaceRow(was[i], d))
  }

  lemma AllEdited(was: seq<string>, lines: seq<string>, d: Dict, start: nat, end: nat)
    requires start < end < |was| && EditedUpTo(was, lines, d, start, end)
    ensures lines == EditLines(was, d, start, end)
  {
  }

  method ReplacePropagationRows(body: string, d: Dict) returns (r: Result<string>)
    ensures r == Replaced(body, d)
  {
    var lines := SplitLines(body);
    if TABLE_START !in lines || TABLE_END !in lines {
      return Success(body);
    }
    var start := FirstIndex(lines, TABLE_START, 0).value;
    var found := FirstIndex(lines, TABLE_END, start);
    if found.None? {
      return Failure("ValueError");
    }
    var end := found.value;
    MarkersApart(lines, start, end);
    ghost var was := lines;
    var index := start + 1;
    while index < end
      invariant start + 1 <= index <= end && EditedUpTo(was, lines, d, start, index)
    {
      var row := FirstReplacement(lines[index], d);
      lines := lines[index := row];
      index := index + 1;
    }
    AllEdited(was, lines, d, start, end);
    return Success(RStrip(Join(lines)) + "\n");
  }

  // ---------------------------------------------------------------- the map

  /** The table as a map from targets to rows. */
  function View(rows: seq<string>): map<string, string> {
    if rows == [] then map[]
    else
      var before := View(rows[..|rows| - 1]);
      var row := rows[|rows| - 1];
      match RowTarget(row) case None => before case Some(t) => before[t := row]
  }

  /** A single line that is a row of `t`. */
  ghost predicate IsRowOf(t: string, row: string) {
    IsTarget(t) && RowTarget(row) == Some(t) && OneLine(row)
  }

  /** Replacements for targets, each a row of its own target. */
  ghost predicate IsUpdate(d: Dict) {
    All(d, IsRowOf)
  }

  lemma PutUpdate(d: Dict, t: string, row: string)
    requires IsUpdate(d) && IsRowOf(t, row)
    ensures IsUpdate(Put(d, t, row))
  {
    PutAll(d, t, row, IsRowOf);
  }

  /** The replacement of the shown targets. */
  function Override(view: map<string, string>, d: Dict): map<string, string> {
    map t | t in view :: if Get(d, t).Some? then Get(d, t).value else view[t]
  }

  lemma {:induction false} ReplaceRowExact(line: string, d: Dict)
    requires IsUpdate(d)
    ensures ReplaceRow(line, d) ==
      if RowTarget(line).Some? && Get(d, RowTarget(line).value).Some? then Get(d, RowTarget(line).value).value else line
    ensures RowTarget(ReplaceRow(line, d)) == RowTarget(line)
    ensures OneLine(line) ==> OneLine(ReplaceRow(line, d))
  {
    if d != [] {
      RowTargetExact(line, d[0].0);
      ReplaceRowExact(line, d[1..]);
    }
  }

  lemma {:induction false} ViewOfReplaced(rows: seq<string>, d: Dict)
    requires IsUpdate(d)
    ensures View(ReplaceRows(rows, d)) == Override(View(rows), d)
  {
    if rows != [] {
      var n := |rows| - 1;
      ViewOfReplaced(rows[..n], d);
      ReplaceRowExact(rows[n], d);
      assert ReplaceRows(rows, d)[..n] == ReplaceRows(rows[..n], d);
    }
  }

  /** What an edit may change: the rows inside the markers, and blanks at the end of the body. */
  ghost predicate Edited(lines: seq<string>, lines': seq<string>, start: nat, end: nat) {
    && HasTable(lines, start, end) && HasTable(lines', start, end)
    && lines'[..start + 1] == lines[..start + 1]
    && lines'[end..] == RStripLines(lines[end..])
  }

  /** A line that looks like a row, of whatever target. */
  ghost predicate IsTableLine(t: string, row: string) {
    "| `" <= row && OneLine(row)
  }

  /** Replacements that put in such lines only. */
  ghost predicate IsEdit(d: Dict) {
    All(d, IsTableLine)
  }

  lemma UpdateIsEdit(d: Dict)
    requires IsUpdate(d)
    ensures IsEdit(d)
  {
    forall i | 0 <= i < |d| ensures IsTableLine(d[i].0, d[i].1) {
      assert IsRowOf(d[i].0, d[i].1);
      assert RowPrefix(d[i].0)[..3] == "| `";
    }
  }

  lemma {:induction false} ReplaceRowLine(line: string, d: Dict)
    requires IsEdit(d)
    ensures ReplaceRow(line, d) != line ==> IsTableLine("", ReplaceRow(line, d))
  {
    if d != [] && !(RowPrefix(d[0].0) <= line) {
      ReplaceRowLine(line, d[1..]);
    } else if d != [] {
      assert IsTableLine(d[0].0, d[0].1);
    }
  }

  lemma InkedEnd()
    ensures RStrip(TABLE_END) == TABLE_END && TABLE_END != ""
  {
    assert TABLE_END[|TABLE_END| - 1] == '>';
  }

  lemma FirstIndexIs(lines: seq<string>, x: string, from: nat, k: nat)
    requires from <= k < |lines| && lines[k] == x && forall i :: from <= i < k ==> lines[i] != x
    ensures FirstIndex(lines, x, from) == Some(k)
  {
  }

  function EditLines(lines: seq<string>, d: Dict, start: nat, end: nat): (r: seq<string>)
    requires start < end < |lines|
    ensures |r| == |lines|
    ensures forall i :: 0 <= i < |r| ==> r[i] == if start < i < end then ReplaceRow(lines[i], d) else lines[i]
  {
    lines[..start + 1] + ReplaceRows(lines[start + 1..end], d) + lines[end..]
  }

  /** Replacing rows keeps the markers where they are. */
  lemma EditKeepsTable(lines: seq<string>, d: Dict, start: nat, end: nat)
    requires HasTable(lines, start, end) && OneLineEach(lines) && IsEdit(d)
    ensures var edited := EditLines(lines, d, start, end); OneLineEach(edited) && HasTable(edited, start, end)
  {
    var edited := EditLines(lines, d, start, end);
    forall i | 0 <= i < |lines|
      ensures OneLine(edited[i]) && (edited[i] != lines[i] ==> edited[i] != TABLE_START && edited[i] != TABLE_END)
    {
      ReplaceRowLine(lines[i], d);
      if edited[i] != lines[i] {
        assert edited[i][0] == '|';
      }
    }
    FirstIndexIs(edited, TABLE_START, 0, start);
    FirstIndexIs(edited, TABLE_END, start, end);
  }

  /** So does stripping the blanks at the end. */
  lemma StripKeepsTable(lines: seq<string>, start: nat, end: nat)
    requires HasTable(lines, start, end)
    ensures var r := RStripLines(lines);
      HasTable(r, start, end) && r[..end + 1] == lines[..end + 1] && r[end..] == RStripLines(lines[end..])
  {
    InkedEnd();
    RStripLinesKeeps(lines, end);
    var r := RStripLines(lines);
    assert forall i :: 0 <= i <= end ==> r[i] == r[..end + 1][i] == lines[i];
    FirstIndexIs(r, TABLE_START, 0, start);
    FirstIndexIs(r, TABLE_END, start, end);
  }

  lemma SplitOfStripped(lines: seq<string>)
    requires OneLineEach(lines) && RStripLines(lines) != []
    ensures SplitLines(RStrip(Join(lines)) + "\n") == RStripLines(lines)
  {
    RStripLinesOneLine(lines);
    RStripOfJoin(lines);
    SplitOfJoin(RStripLines(lines));
  }

  lemma EditSlices(lines: seq<string>, d: Dict, start: nat, end: nat)
    requires start < end < |lines|
    ensures var edited := EditLines(lines, d, start, end);
      && edited[0..start + 1] == lines[..start + 1] && edited[end..] == lines[end..]
      && edited[start + 1..end] == ReplaceRows(lines[start + 1..end], d)
  {
  }

  lemma SameSlice(a: seq<string>, b: seq<string>, i: nat, j: nat, k: nat)
    requires i <= j <= k <= |a| && k <= |b| && a[..k] == b[..k]
    ensures a[i..j] == b[i..j]
  {
    assert a[i..j] == a[..k][i..j] && b[i..j] == b[..k][i..j];
  }

  /** An edit inside the markers, stripped at the end. */
  lemma EditedParts(lines: seq<string>, edited: seq<string>, r: seq<string>, start: nat, end: nat)
    requires HasTable(lines, start, end) && HasTable(r, start, end) && |edited| == |lines|
    requires edited[0..start + 1] == lines[..start + 1] && edited[end..] == lines[end..]
    requires r[..end + 1] == edited[..end + 1] && r[end..] == RStripLines(edited[end..])
    ensures Edited(lines, r, start, end) && r[start + 1..end] == edited[start + 1..end]
  {
    SameSlice(r, edited, 0, start + 1, end + 1);
    SameSlice(r, edited, start + 1, end, end + 1);
  }

  /** The lines the edited text splits into. */
  lemma EditedLines(lines: seq<string>, d: Dict, start: nat, end: nat)
    requires HasTable(lines, start, end) && OneLineEach(lines) && IsEdit(d)
    ensures var edited := EditLines(lines, d, start, end);
            var lines' := SplitLines(RStrip(Join(edited)) + "\n");
      && lines' == RStripLines(edited)
      && Edited(lines, lines', start, end)
      && lines'[start + 1..end] == ReplaceRows(lines[start + 1..end], d)
  {
    var edited := EditLines(lines, d, start, end);
    EditKeepsTable(lines, d, start, end);
    StripKeepsTable(edited, start, end);
    SplitOfStripped(edited);
    EditSlices(lines, d, start, end);
    EditedParts(lines, edited, RStripLines(edited), start, end);
  }

  ghost predicate RowsSettled(lines: seq<string>, d: Dict, start: nat, end: nat)
    requires end <= |lines|
  {
    forall i :: start < i < end ==> ReplaceRow(lines[i], d) == lines[i]
  }

  /** An edit that changes no row of an edited text changes nothing. */
  lemma EditedIsSettled(lines: seq<string>, d: Dict, d': Dict, start: nat, end: nat)
    requires HasTable(lines, start, end) && OneLineEach(lines) && IsEdit(d)
    requires var lines' := RStripLines(EditLines(lines, d, start, end));
      end <= |lines'| && RowsSettled(lines', d', start, end)
    ensures var text := RStrip(Join(EditLines(lines, d, start, end))) + "\n"; Replaced(text, d') == Success(text)
  {
    var edited := EditLines(lines, d, start, end);
    EditedLines(lines, d, start, end);
    var lines' := RStripLines(edited);
    assert EditLines(lines', d', start, end) == lines';
    RStripOfJoin(edited);
    RStripOfJoin(lines');
    RStripLinesIdempotent(edited);
  }

  /** An edit that changes a row changes the text. */
  lemma SettledRows(text: string, d: Dict, start: nat, end: nat)
    requires HasTable(SplitLines(text), start, end) && IsEdit(d) && Replaced(text, d) == Success(text)
    ensures RowsSettled(SplitLines(text), d, start, end)
  {
    var lines := SplitLines(text);
    EditedLines(lines, d, start, end);
    forall i | start < i < end ensures ReplaceRow(lines[i], d) == lines[i] {
      assert lines[i] == lines[start + 1..end][i - start - 1];
    }
  }

  /** A body whose table can be edited. */
  ghost predicate HasTableIn(body: string, start: nat, end: nat) {
    HasTable(SplitLines(body), start, end)
  }

  function Rows(body: string, start: nat, end: nat): seq<string>
    requires HasTableIn(body, start, end)
  {
    SplitLines(body)[start + 1..end]
  }

  /** An edit of a body with a table is an update of its map and keeps the lines outside the markers. */
  lemma ReplaceIsMapUpdate(body: string, d: Dict, start: nat, end: nat)
    requires HasTableIn(body, start, end) && IsUpdate(d)
    ensures Replaced(body, d).Success?
    ensures var r := Replaced(body, d).value;
      && Edited(SplitLines(body), SplitLines(r), start, end)
      && Rows(r, start, end) == ReplaceRows(Rows(body, start, end), d)
      && View(Rows(r, start, end)) == Override(View(Rows(body, start, end)), d)
  {
    UpdateIsEdit(d);
    EditedLines(SplitLines(body), d, start, end);
    ViewOfReplaced(Rows(body, start, end), d);
  }

  /**
   Other bodies are returned as they are, or the edit fails: exactly when every end marker precedes
   the first start marker.
   */
  lemma WithoutTable(body: string, d: Dict)
    ensures Replaced(body, d).Failure? <==>
      && TABLE_START in SplitLines(body) && TABLE_END in SplitLines(body)
      && forall start, end :: !HasTableIn(body, start, end)
    ensures (TABLE_START !in SplitLines(body) || TABLE_END !in SplitLines(body)) ==> Replaced(body, d) == Success(body)
  {
    var lines := SplitLines(body);
    if TABLE_START in lines && TABLE_END in lines {
      var start := FirstIndex(lines, TABLE_START, 0).value;
      if FirstIndex(lines, TABLE_END, start).Some? {
        assert HasTableIn(body, start, FirstIndex(lines, TABLE_END, start).value);
      }
    }
  }
}
