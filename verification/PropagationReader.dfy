/**
 `recorded_propagations` of `agricola/planner.py` reads recorded pull requests back from the text
 of an issue body; it finds exactly what was recorded there.
 */
module PropagationReader {
  import opened Wrappers
  import opened Text
  import opened TextLines
  import opened Dicts
  import opened PropagationTable
  import opened PropagationEdits

  const RECORDED := " | pr | Recorded | ["

  /** The text before the first closing bracket. */
  function UpToBracket(s: string): Option<string> {
    if s == "" then None
    else if s[0] == ']' then Some("")
    else
      match UpToBracket(s[1..])
      case None => None
      case Some(rest) => Some([s[0]] + rest)
  }

  /** The match of the recorded-row pattern after the quoted target. */
  function ReadRest(t: string, rest: string): Option<(string, string)> {
    if !(RECORDED <= rest) then None
    else
      match UpToBracket(rest[|RECORDED|..])
      case None => None
      case Some(reference) => if IsReference(reference) then Some((t, reference)) else None
  }

  /** The match of the recorded-row pattern: target and reference. */
  function ReadRow(line: string): Option<(string, string)> {
    match RowTarget(line)
    case None => None
    case Some(t) => ReadRest(t, line[|KeyOf(t)|..])
  }

  function Recorded(lines: seq<string>): map<string, string> {
    if lines == [] then map[]
    else
      var n := |lines| - 1;
      var before := Recorded(lines[..n]);
      match ReadRow(lines[n]) case None => before case Some(p) => before[p.0 := p.1]
  }

  method RecordedPropagations(body: string) returns (recorded: map<string, string>)
    ensures recorded == Recorded(SplitLines(body))
  {
    var lines := SplitLines(body);
    recorded := map[];
    for i := 0 to |lines|
      invariant recorded == Recorded(lines[..i])
    {
      assert lines[..i + 1][..i] == lines[..i];
      var read := ReadRow(lines[i]);
      if read.Some? {
        recorded := recorded[read.value.0 := read.value.1];
      }
    }
    assert lines[..|lines|] == lines;
  }

  // ---------------------------------------------------------------- single rows

  lemma {:induction false} UpToBracketAt(s: string, rest: string)
    requires ']' !in s
    ensures UpToBracket(s + ("]" + rest)) == Some(s)
  {
    if s != "" {
      assert (s + ("]" + rest))[1..] == s[1..] + ("]" + rest);
      UpToBracketAt(s[1..], rest);
      assert s == [s[0]] + s[1..];
    } else {
      assert "" + ("]" + rest) == "]" + rest;
    }
  }

  lemma {:induction false} RefRunChars(s: string)
    ensures forall i :: 0 <= i < RefRun(s) ==> IsRefChar(s[i])
  {
    if s != "" && IsRefChar(s[0]) {
      RefRunChars(s[1..]);
    }
  }

  lemma ReferenceChars(s: string)
    requires IsReference(s)
    ensures ']' !in s && OneLine(s)
  {
    var owner := RefRun(s);
    RefRunChars(s);
    var rest := s[owner + 1..];
    var name := RefRun(rest);
    RefRunChars(rest);
    forall i | 0 <= i < |s| ensures s[i] != ']' && !IsBreak(s[i]) {
      if i > owner {
        assert s[i] == rest[i - owner - 1];
        if i > owner + 1 + name {
          assert s[i] == rest[name + 1..][i - owner - 1 - name - 1];
        }
      }
    }
  }

  /** The rest of a table row after the quoted target. */
  lemma RowRest(t: string, mode: string, status: string, pr: string)
    requires IsTarget(t)
    ensures TableRow(t, mode, status, pr)[|KeyOf(t)|..] == " | " + mode + " | " + status + " | " + pr + " |"
  {
    assert RowPrefix(t) == KeyOf(t) + " |";
  }

  lemma RecordedRest(t: string, pr: string, tail: string)
    requires IsReference(pr)
    ensures ReadRest(t, RECORDED + (pr + ("]" + tail))) == Some((t, pr))
  {
    ReferenceChars(pr);
    UpToBracketAt(pr, tail);
    assert (RECORDED + (pr + ("]" + tail)))[|RECORDED|..] == pr + ("]" + tail);
  }

  lemma OtherRest(t: string, rest: string)
    requires |rest| > 8 && rest[8] != 'R'
    ensures ReadRest(t, rest) == None
  {
    assert RECORDED[8] == 'R';
  }

  lemma RecordedHead()
    ensures " | " + "pr" + " | " + "Recorded" + " | " + "[" == RECORDED
  {
  }

  /** Concatenation regrouped: the head takes the bracket, the link its end. */
  lemma RegroupLink(head: string, open: string, pr: string, mid: string, url: string, close: string, end: string)
    ensures head + (open + pr + mid + url + close) + end == (head + open) + (pr + (mid + (url + (close + end))))
  {
  }

  lemma PublishedRest(t: string, pr: string, url: string)
    requires IsTarget(t)
    ensures OutcomeRow(Published(t, pr, url))[|KeyOf(t)|..] == RECORDED + (pr + ("](" + (url + (")" + " |"))))
  {
    RowRest(t, "pr", "Recorded", "[" + pr + "](" + url + ")");
    RecordedHead();
    RegroupLink(" | " + "pr" + " | " + "Recorded" + " | ", "[", pr, "](", url, ")", " |");
  }

  lemma ReadRowBy(line: string, t: string, rest: string)
    requires RowTarget(line) == Some(t) && line[|KeyOf(t)|..] == rest
    ensures ReadRow(line) == ReadRest(t, rest)
  {
  }

  lemma PublishedReadsBack(t: string, pr: string, url: string)
    requires ValidOutcome(Published(t, pr, url))
    ensures ReadRow(OutcomeRow(Published(t, pr, url))) == Some((t, pr))
  {
    var row, tail := OutcomeRow(Published(t, pr, url)), "(" + (url + (")" + " |"));
    OutcomeRowIsRow(Published(t, pr, url));
    PublishedRest(t, pr, url);
    assert "](" + (url + (")" + " |")) == "]" + tail;
    ReadRowBy(row, t, RECORDED + (pr + ("]" + tail)));
    RecordedRest(t, pr, tail);
  }

  lemma SkipReadsAsNothing(t: string, reason: string)
    requires ValidOutcome(Skipped(t, reason))
    ensures ReadRow(OutcomeRow(Skipped(t, reason))) == None
  {
    OutcomeRowIsRow(Skipped(t, reason));
    RowRest(t, "pr", "Skipped " + DASH + " " + Escape(reason), DASH);
    OtherRest(t, OutcomeRow(Skipped(t, reason))[|KeyOf(t)|..]);
  }

  /** A published outcome reads back as its reference, a skip and a queued row read as nothing. */
  lemma ReadsBack(o: TableOutcome, t: string)
    requires ValidOutcome(o) && IsTarget(t)
    ensures ReadRow(OutcomeRow(o)) == if o.Published? then Some((o.target, o.pr)) else None
    ensures ReadRow(QueuedRow(t)) == None
  {
    RowIsRow(t, "pr", "Queued", DASH);
    RowRest(t, "pr", "Queued", DASH);
    OtherRest(t, QueuedRow(t)[|KeyOf(t)|..]);
    match o
    case Published(u, pr, url) => PublishedReadsBack(u, pr, url);
    case Skipped(u, reason) => SkipReadsAsNothing(u, reason);
  }

  lemma {:induction false} UpToBracketPrefix(p: string, s: string)
    requires p <= s && UpToBracket(p).Some?
    ensures UpToBracket(s) == UpToBracket(p)
  {
    if p[0] != ']' {
      assert p[1..] <= s[1..];
      UpToBracketPrefix(p[1..], s[1..]);
    }
  }

  /** Cutting blanks off the end of a line does not make it a recorded row. */
  lemma ReadPrefix(p: string, line: string)
    requires p <= line && ReadRow(p).Some?
    ensures ReadRow(line) == ReadRow(p)
  {
    var t := RowTarget(p).value;
    RowTargetExact(line, t);
    var cut := |KeyOf(t)|;
    assert p[cut..] <= line[cut..];
    UpToBracketPrefix(p[cut..][|RECORDED|..], line[cut..][|RECORDED|..]);
  }

  // ---------------------------------------------------------------- whole bodies

  ghost predicate OneRowEach(rows: seq<string>) {
    forall i, j :: 0 <= i < j < |rows| && RowTarget(rows[i]).Some? ==> RowTarget(rows[i]) != RowTarget(rows[j])
  }

  /** One row per target, and recorded rows only inside the table. */
  ghost predicate IssueBody(lines: seq<string>, start: nat, end: nat) {
    && HasTable(lines, start, end)
    && OneRowEach(lines[start + 1..end])
    && forall i :: 0 <= i < |lines| && !(start < i < end) ==> ReadRow(lines[i]).None?
  }

  /** The references in a map of rows. */
  function References(view: map<string, string>): map<string, string> {
    map t | t in view && ReadRow(view[t]).Some? :: ReadRow(view[t]).value.1
  }

  lemma {:induction false} ViewHas(rows: seq<string>, t: string)
    requires OneRowEach(rows)
    ensures forall i :: 0 <= i < |rows| && RowTarget(rows[i]) == Some(t) ==> t in View(rows) && View(rows)[t] == rows[i]
    ensures t in View(rows) ==> View(rows)[t] in rows && RowTarget(View(rows)[t]) == Some(t)
  {
    if rows != [] {
      var n := |rows| - 1;
      ViewHas(rows[..n], t);
      assert forall i :: 0 <= i < n ==> rows[..n][i] == rows[i];
    }
  }

  lemma ReferencesPut(view: map<string, string>, t: string, row: string)
    requires t !in view && RowTarget(row) == Some(t)
    ensures References(view[t := row]) ==
      match ReadRow(row) case None => References(view) case Some(p) => References(view)[p.0 := p.1]
  {
  }

  lemma {:induction false} RecordedOfRows(rows: seq<string>)
    requires OneRowEach(rows)
    ensures Recorded(rows) == References(View(rows))
  {
    if rows != [] {
      var n := |rows| - 1;
      RecordedOfRows(rows[..n]);
      if RowTarget(rows[n]).Some? {
        var t := RowTarget(rows[n]).value;
        ViewHas(rows[..n], t);
        ReferencesPut(View(rows[..n]), t, rows[n]);
      }
    }
  }

  ghost predicate Unread(lines: seq<string>) {
    forall i :: 0 <= i < |lines| ==> ReadRow(lines[i]).None?
  }

  lemma RecordedLast(lines: seq<string>, last: string)
    ensures Recorded(lines + [last]) ==
      match ReadRow(last) case None => Recorded(lines) case Some(p) => Recorded(lines)[p.0 := p.1]
  {
    assert (lines + [last])[..|lines|] == lines;
  }

  lemma {:induction false} RecordedConcat(a: seq<string>, b: seq<string>)
    requires Unread(b)
    ensures Recorded(a + b) == Recorded(a)
    decreases |b|
  {
    if b == [] {
      assert a + b == a;
    } else {
      var n := |b| - 1;
      assert a + b == (a + b[..n]) + [b[n]];
      RecordedConcat(a, b[..n]);
      RecordedLast(a + b[..n], b[n]);
    }
  }

  lemma {:induction false} RecordedPrepend(a: seq<string>, b: seq<string>)
    requires Unread(a)
    ensures Recorded(a + b) == Recorded(b)
    decreases |b|
  {
    if b == [] {
      RecordedConcat([], a);
      assert [] + a == a + b;
    } else {
      var n := |b| - 1;
      assert a + b == (a + b[..n]) + [b[n]] && b == b[..n] + [b[n]];
      RecordedPrepend(a, b[..n]);
      RecordedLast(a + b[..n], b[n]);
      RecordedLast(b[..n], b[n]);
    }
  }

  lemma RecordedOfParts(head: seq<string>, rows: seq<string>, tail: seq<string>)
    requires Unread(head) && Unread(tail)
    ensures Recorded(head + rows + tail) == Recorded(rows)
  {
    RecordedConcat(head + rows, tail);
    RecordedPrepend(head, rows);
  }

  lemma ThreeParts(lines: seq<string>, i: nat, j: nat)
    requires i <= j <= |lines|
    ensures lines == lines[..i] + lines[i..j] + lines[j..]
  {
  }

  /** The lines before the rows of a table, its rows, and the lines behind them. */
  lemma Parts(lines: seq<string>, start: nat, end: nat)
    returns (head: seq<string>, rows: seq<string>, tail: seq<string>)
    requires IssueBody(lines, start, end)
    ensures lines == head + rows + tail && rows == lines[start + 1..end]
    ensures Unread(head) && Unread(tail) && OneRowEach(rows)
  {
    head, rows, tail := lines[..start + 1], lines[start + 1..end], lines[end..];
    ThreeParts(lines, start + 1, end);
    forall i | 0 <= i < |tail| ensures ReadRow(tail[i]).None? {
      assert tail[i] == lines[end + i];
    }
  }

  /** Reading a body gives the references of its table. */
  lemma RecordedIsView(lines: seq<string>, start: nat, end: nat)
    requires IssueBody(lines, start, end)
    ensures Recorded(lines) == References(View(lines[start + 1..end]))
  {
    var head, rows, tail := Parts(lines, start, end);
    RecordedOfParts(head, rows, tail);
    RecordedOfRows(rows);
  }

  lemma ReplacedKeepsOneRow(rows: seq<string>, d: Dict)
    requires OneRowEach(rows) && IsUpdate(d)
    ensures OneRowEach(ReplaceRows(rows, d))
  {
    forall i | 0 <= i < |rows| ensures RowTarget(ReplaceRows(rows, d)[i]) == RowTarget(rows[i]) {
      ReplaceRowExact(rows[i], d);
    }
  }

  lemma StrippedIsUnread(line: string)
    requires ReadRow(line).None?
    ensures ReadRow(RStrip(line)).None?
  {
    if ReadRow(RStrip(line)).Some? {
      ReadPrefix(RStrip(line), line);
    }
  }

  lemma {:induction false} StrippedAreUnread(lines: seq<string>)
    requires Unread(lines)
    ensures Unread(RStripLines(lines))
  {
    if lines != [] {
      var n := |lines| - 1;
      StrippedAreUnread(lines[..n]);
      StrippedIsUnread(lines[n]);
    }
  }

  lemma EditKeepsBody(lines: seq<string>, lines': seq<string>, start: nat, end: nat, d: Dict)
    requires IssueBody(lines, start, end) && Edited(lines, lines', start, end) && IsUpdate(d)
    requires lines'[start + 1..end] == ReplaceRows(lines[start + 1..end], d)
    ensures IssueBody(lines', start, end)
  {
    ReplacedKeepsOneRow(lines[start + 1..end], d);
    forall i | 0 <= i < |lines[end..]| ensures ReadRow(lines[end..][i]).None? {
      assert lines[end..][i] == lines[end + i];
    }
    StrippedAreUnread(lines[end..]);
    forall i | 0 <= i < |lines'| && !(start < i < end) ensures ReadRow(lines'[i]).None? {
      if i <= start {
        assert lines'[i] == lines'[..start + 1][i] == lines[i];
      } else {
        assert lines'[i] == lines'[end..][i - end];
      }
    }
  }

  /** What reads back from the row of `t`: its last outcome's reference, nothing after a skip, else as before. */
  function ReadAfter(row: string, outcomes: seq<TableOutcome>, t: string): Option<string> {
    match LastOutcome(outcomes, t)
    case Some(o) => if o.Published? then Some(o.pr) else None
    case None => if ReadRow(row).Some? then Some(ReadRow(row).value.1) else None
  }

  function ReferencesAfter(view: map<string, string>, outcomes: seq<TableOutcome>): map<string, string> {
    map t | t in view && ReadAfter(view[t], outcomes, t).Some? :: ReadAfter(view[t], outcomes, t).value
  }

  lemma OutcomesReadBack(view: map<string, string>, outcomes: seq<TableOutcome>, t: string)
    requires t in view && forall i :: 0 <= i < |outcomes| ==> ValidOutcome(outcomes[i])
    ensures var read, after := ReadRow(Record(view, outcomes)[t]), ReadAfter(view[t], outcomes, t);
      read.Some? == after.Some? && (read.Some? ==> read.value.1 == after.value)
  {
    var o := LastOutcome(outcomes, t);
    if o.Some? {
      ReadsBack(o.value, o.value.target);
    }
  }

  lemma ReferencesOfRecord(view: map<string, string>, outcomes: seq<TableOutcome>)
    requires forall i :: 0 <= i < |outcomes| ==> ValidOutcome(outcomes[i])
    ensures References(Record(view, outcomes)) == ReferencesAfter(view, outcomes)
  {
    forall t | t in view
      ensures var read, after := ReadRow(Record(view, outcomes)[t]), ReadAfter(view[t], outcomes, t);
        read.Some? == after.Some? && (read.Some? ==> read.value.1 == after.value)
    {
      OutcomesReadBack(view, outcomes, t);
    }
  }

  /** Reading after recording gives back exactly the recorded references, and keeps the others. */
  lemma RecordThenRead(body: string, outcomes: seq<TableOutcome>, start: nat, end: nat)
    requires IssueBody(SplitLines(body), start, end)
    requires forall i :: 0 <= i < |outcomes| ==> ValidOutcome(outcomes[i])
    ensures HasTableIn(body, start, end) && Replaced(body, OutcomeRows(outcomes)).Success?
    ensures var r := SplitLines(Replaced(body, OutcomeRows(outcomes)).value);
      && IssueBody(r, start, end)
      && Recorded(r) == ReferencesAfter(View(Rows(body, start, end)), outcomes)
  {
    OutcomeRowsAre(outcomes, "");
    ReplaceIsMapUpdate(body, OutcomeRows(outcomes), start, end);
    RecordIsMapUpdate(body, outcomes, start, end);
    var r := SplitLines(Replaced(body, OutcomeRows(outcomes)).value);
    EditKeepsBody(SplitLines(body), r, start, end, OutcomeRows(outcomes));
    RecordedIsView(r, start, end);
    ReferencesOfRecord(View(Rows(body, start, end)), outcomes);
  }

  // ---------------------------------------------------------------- regeneration

  lemma StateAt(line: string, t: string, rest: string, state: string)
    requires line == KeyOf(t) + (" | pr " + (state + rest))
    ensures Contains(line, state) && "| `" <= line
  {
    assert line[|KeyOf(t)| + 6..] == state + rest;
    ContainsAt(line, state, |KeyOf(t)| + 6);
  }

  lemma PublishedHasState(t: string, pr: string, url: string)
    ensures IsStateLine(OutcomeRow(Published(t, pr, url)))
  {
    StateAt(OutcomeRow(Published(t, pr, url)), t, " [" + pr + "](" + url + ") |", "| Recorded |");
  }

  lemma SkipHasState(t: string, reason: string)
    ensures IsStateLine(OutcomeRow(Skipped(t, reason)))
  {
    StateAt(OutcomeRow(Skipped(t, reason)), t, " " + Escape(reason) + " | " + DASH + " |", "| Skipped " + DASH);
  }

  /** State rows only inside the table. */
  ghost predicate StateInTable(lines: seq<string>, start: nat, end: nat) {
    forall i :: 0 <= i < |lines| && IsStateLine(lines[i]) ==> start < i < end && RowTarget(lines[i]).Some?
  }

  /** The state that a body carries over is what its table shows. */
  lemma LastStateIsView(lines: seq<string>, start: nat, end: nat, t: string)
    requires HasTable(lines, start, end) && OneRowEach(lines[start + 1..end]) && StateInTable(lines, start, end)
    ensures var view := View(lines[start + 1..end]);
      LastState(lines, t) == if t in view && IsStateLine(view[t]) then Some(view[t]) else None
  {
    var rows := lines[start + 1..end];
    ViewHas(rows, t);
    if LastState(lines, t).Some? {
      var row := LastState(lines, t).value;
      var i :| 0 <= i < |lines| && lines[i] == row;
      assert rows[i - start - 1] == row;
    }
    if t in View(rows) && IsStateLine(View(rows)[t]) {
      assert View(rows)[t] in lines;
    }
  }

  /** `shown` with the state rows of `before`. */
  function CarryOver(shown: map<string, string>, before: map<string, string>): map<string, string> {
    map t | t in shown :: if t in before && IsStateLine(before[t]) then before[t] else shown[t]
  }

  lemma CarryOverAgrees(shown: map<string, string>, lines: seq<string>, start: nat, end: nat)
    requires HasTable(lines, start, end) && OneRowEach(lines[start + 1..end]) && StateInTable(lines, start, end)
    ensures KeepState(shown, lines) == CarryOver(shown, View(lines[start + 1..end]))
  {
    forall t | t in shown ensures KeepState(shown, lines)[t] == CarryOver(shown, View(lines[start + 1..end]))[t] {
      LastStateIsView(lines, start, end, t);
    }
  }

  /** Regenerating a body keeps, for every target both bodies show, the state the old table showed. */
  lemma RegenerationKeepsState(body: string, previous: string, start: nat, end: nat, start': nat, end': nat)
    requires HasTableIn(body, start, end) && HasTableIn(previous, start', end')
    requires OneRowEach(Rows(previous, start', end')) && StateInTable(SplitLines(previous), start', end')
    ensures Preserve(body, previous).Success?
    ensures var r := Preserve(body, previous).value;
      && HasTableIn(r, start, end)
      && View(Rows(r, start, end)) == CarryOver(View(Rows(body, start, end)), View(Rows(previous, start', end')))
  {
    PreserveIsMapUpdate(body, previous, start, end);
    CarryOverAgrees(View(Rows(body, start, end)), SplitLines(previous), start', end');
  }
}
