/**
 The table as the program renders it (`_propagation_table` of `agricola/planner.py`): bodies built around
 it meet what the reader and the edits ask of a body, and show what was decided.
 */
module PropagationRender {
  import opened Wrappers
  import opened Text
  import opened TextLines
  import opened Models
  import opened PropagationTable
  import opened PropagationEdits
  import opened PropagationReader

  /** What a table is rendered from; `outcomes` are the decisions, and `visible` the targets it is restricted to. */
  datatype Rendering = Rendering(
    sdks: seq<Sdk>, visible: Option<set<string>>, selected: set<string>, outcomes: seq<TableOutcome>)

  ghost predicate ValidRendering(r: Rendering) {
    && (forall i :: 0 <= i < |r.sdks| ==> IsTarget(r.sdks[i].name))
    && NamesDiffer(r.sdks)
    && (forall i :: 0 <= i < |r.outcomes| ==> ValidOutcome(r.outcomes[i]))
  }

  function ModeText(a: Automation): string {
    if a == Pr then "pr" else "notify"
  }

  function StatusOf(r: Rendering, sdk: Sdk): string {
    match LastOutcome(r.outcomes, sdk.name)
    case Some(Published(_, _, _)) => "Recorded"
    case Some(Skipped(_, reason)) => "Skipped " + DASH + " " + Escape(reason)
    case None =>
      if sdk.name in r.selected then "Queued"
      else if sdk.automation == Notify then "Notification only"
      else "Awaiting decision"
  }

  function PullOf(r: Rendering, sdk: Sdk): string {
    match LastOutcome(r.outcomes, sdk.name)
    case Some(Published(_, pr, url)) => "[" + pr + "](" + url + ")"
    case _ => DASH
  }

  function SdkRow(r: Rendering, sdk: Sdk): string {
    TableRow(sdk.name, ModeText(sdk.automation), StatusOf(r, sdk), PullOf(r, sdk))
  }

  predicate IsShown(r: Rendering, sdk: Sdk) {
    r.visible.None? || sdk.name in r.visible.value
  }

  function Shown(r: Rendering, sdks: seq<Sdk>): (shown: seq<Sdk>)
    ensures forall x :: x in shown <==> x in sdks && IsShown(r, x)
  {
    if sdks == [] then []
    else
      assert sdks == [sdks[0]] + sdks[1..];
      (if IsShown(r, sdks[0]) then [sdks[0]] else []) + Shown(r, sdks[1..])
  }

  function SdkRows(r: Rendering, sdks: seq<Sdk>): (rows: seq<string>)
    ensures |rows| == |sdks| && forall i :: 0 <= i < |rows| ==> rows[i] == SdkRow(r, sdks[i])
  {
    seq(|sdks|, i requires 0 <= i < |sdks| => SdkRow(r, sdks[i]))
  }

  const HEADING := "| Target " + "| Automation | Status | Pull request |"
  const RULE := "| --- | --- | --- | --- |"

  /** `_propagation_table`. */
  function RenderedTable(r: Rendering): seq<string> {
    [TABLE_START, HEADING, RULE] + SdkRows(r, Shown(r, r.sdks)) + [TABLE_END]
  }

  // ---------------------------------------------------------------- rows

  lemma RenderedRow(r: Rendering, sdk: Sdk)
    requires ValidRendering(r) && IsTarget(sdk.name)
    ensures RowTarget(SdkRow(r, sdk)) == Some(sdk.name) && OneLine(SdkRow(r, sdk))
  {
    CellsOneLine(r, sdk);
    RowIsRow(sdk.name, ModeText(sdk.automation), StatusOf(r, sdk), PullOf(r, sdk));
  }

  lemma CellsOneLine(r: Rendering, sdk: Sdk)
    requires ValidRendering(r)
    ensures OneLine(ModeText(sdk.automation)) && OneLine(StatusOf(r, sdk)) && OneLine(PullOf(r, sdk))
  {
    var o := LastOutcome(r.outcomes, sdk.name);
    PlainCells();
    if o.Some? {
      var i :| 0 <= i < |r.outcomes| && r.outcomes[i] == o.value;
      assert ValidOutcome(r.outcomes[i]);
      OutcomeCells(o.value);
    }
  }

  lemma PlainCells()
    ensures OneLine("pr") && OneLine("notify") && OneLine("Recorded") && OneLine("Queued") && OneLine(DASH)
    ensures OneLine("Notification only") && OneLine("Awaiting decision")
  {
  }

  lemma OutcomeCells(o: TableOutcome)
    requires ValidOutcome(o)
    ensures o.Skipped? ==> OneLine("Skipped " + DASH + " " + Escape(o.reason))
    ensures o.Published? ==> OneLine("[" + o.pr + "](" + o.url + ")")
  {
    if o.Skipped? {
      SkippedCell(o.reason);
    } else {
      LinkCell(o.pr, o.url);
    }
  }

  lemma SkippedCell(reason: string)
    requires OneLine(reason)
    ensures OneLine("Skipped " + DASH + " " + Escape(reason))
  {
    EscapeOneLine(reason);
    OneLineConcat("Skipped " + DASH + " ", Escape(reason));
  }

  lemma LinkCell(pr: string, url: string)
    requires OneLine(pr) && OneLine(url)
    ensures OneLine("[" + pr + "](" + url + ")")
  {
    OneLineConcat("[", pr);
    OneLineConcat("[" + pr, "](");
    OneLineConcat("[" + pr + "](", url);
    OneLineConcat("[" + pr + "](" + url, ")");
  }

  lemma OneLineConcat(a: string, b: string)
    requires OneLine(a) && OneLine(b)
    ensures OneLine(a + b)
  {
  }

  /** The characters behind a row's key that the reader tells the rows apart by. */
  lemma RestAt(mode: string, status: string, pr: string)
    requires mode == "notify" || (mode == "pr" && status != "")
    ensures var rest := " | " + mode + " | " + status + " | " + pr + " |";
      |rest| > 8 && (mode == "notify" ==> rest[4] == 'o') && (mode == "pr" ==> rest[8] == status[0])
  {
    var rest := " | " + mode + " | " + status + " | " + pr + " |";
    assert mode == "notify" ==> rest[3 + 1] == mode[1];
    assert mode == "pr" ==> rest[3 + 2 + 3] == status[0];
  }

  /** Only the recorded pull request of a target that gets pull requests reads back. */
  lemma RenderedReads(r: Rendering, sdk: Sdk)
    requires ValidRendering(r) && IsTarget(sdk.name)
    ensures var o := LastOutcome(r.outcomes, sdk.name);
      ReadRow(SdkRow(r, sdk)) ==
        if sdk.automation == Pr && o.Some? && o.value.Published? then Some((sdk.name, o.value.pr)) else None
  {
    var o := LastOutcome(r.outcomes, sdk.name);
    RenderedRow(r, sdk);
    RowRest(sdk.name, ModeText(sdk.automation), StatusOf(r, sdk), PullOf(r, sdk));
    var rest := SdkRow(r, sdk)[|KeyOf(sdk.name)|..];
    ReadRowBy(SdkRow(r, sdk), sdk.name, rest);
    RestAt(ModeText(sdk.automation), StatusOf(r, sdk), PullOf(r, sdk));
    if sdk.automation == Notify {
      NotifyRest(sdk.name, rest);
    } else if o.Some? && o.value.Published? {
      var i :| 0 <= i < |r.outcomes| && r.outcomes[i] == o.value;
      PublishedReadsBack(sdk.name, o.value.pr, o.value.url);
    } else {
      OtherRest(sdk.name, rest);
    }
  }

  lemma NotifyRest(t: string, rest: string)
    requires |rest| > 4 && rest[4] == 'o'
    ensures ReadRest(t, rest) == None
  {
    assert RECORDED[4] == 'r';
  }

  lemma NamesDifferCons(sdk: Sdk, rest: seq<Sdk>)
    requires NamesDiffer(rest) && forall x :: x in rest ==> x.name != sdk.name
    ensures NamesDiffer([sdk] + rest)
  {
    var all := [sdk] + rest;
    forall i, j | 0 <= i < j < |all| ensures all[i].name != all[j].name {
      assert all[j] == rest[j - 1] && rest[j - 1] in rest;
    }
  }

  lemma {:induction false} ShownDistinct(r: Rendering, sdks: seq<Sdk>)
    requires NamesDiffer(sdks)
    ensures NamesDiffer(Shown(r, sdks))
  {
    if sdks != [] {
      ShownDistinct(r, sdks[1..]);
      if IsShown(r, sdks[0]) {
        forall x | x in sdks[1..] ensures x.name != sdks[0].name {
          var k :| 0 <= k < |sdks[1..]| && sdks[1..][k] == x;
          assert sdks[k + 1] == x;
        }
        NamesDifferCons(sdks[0], Shown(r, sdks[1..]));
      } else {
        assert Shown(r, sdks) == Shown(r, sdks[1..]);
      }
    }
  }

  lemma HeadingsAreNoRows()
    ensures OneLine(HEADING) && !("| `" <= HEADING) && OneLine(RULE) && !("| `" <= RULE)
    ensures HEADING[0] == RULE[0] == '|'
  {
    assert HEADING[2] == 'T' && RULE[2] == '-';
  }

  /** What reads as a recorded row looks like recorded state. */
  lemma ReadIsState(line: string)
    requires ReadRow(line).Some?
    ensures IsStateLine(line)
  {
    var t := RowTarget(line).value;
    var at := |KeyOf(t)|;
    assert line[at..][6..18] == RECORDED[6..18];
    assert line[at + 6..][..12] == line[at..][6..18];
    assert RECORDED[6..18] == "| Recorded |";
    assert "| Recorded |" <= line[at + 6..];
    ContainsAt(line, "| Recorded |", at + 6);
  }

  // ---------------------------------------------------------------- bodies

  /** A line around the table: no marker, and nothing that looks like recorded state. */
  ghost predicate Prose(line: string) {
    OneLine(line) && !IsStateLine(line) && line != TABLE_START && line != TABLE_END
  }

  function BodyLines(r: Rendering, above: seq<string>, below: seq<string>): seq<string> {
    above + RenderedTable(r) + below
  }

  /** Where the end marker is. */
  function EndOf(r: Rendering, above: seq<string>): nat {
    |above| + 3 + |Shown(r, r.sdks)|
  }

  lemma MarkersAreOneLine()
    ensures OneLine(TABLE_START) && OneLine(TABLE_END) && TABLE_START != TABLE_END
    ensures TABLE_START[0] != '|' && TABLE_END[0] != '|'
  {
    assert |TABLE_START| != |TABLE_END|;
  }

  /** The lines of a rendered body, one by one. */
  lemma BodyAt(r: Rendering, above: seq<string>, below: seq<string>, i: nat)
    requires i < |BodyLines(r, above, below)|
    ensures var lines := BodyLines(r, above, below); var rows := Shown(r, r.sdks); var start := |above|;
      && |lines| == EndOf(r, above) + 1 + |below|
      && (i < start ==> lines[i] == above[i])
      && (i == start ==> lines[i] == TABLE_START)
      && (i == start + 1 ==> lines[i] == HEADING) && (i == start + 2 ==> lines[i] == RULE)
      && (start + 2 < i < EndOf(r, above) ==> lines[i] == SdkRow(r, rows[i - start - 3]))
      && (i == EndOf(r, above) ==> lines[i] == TABLE_END)
      && (i > EndOf(r, above) ==> lines[i] == below[i - EndOf(r, above) - 1])
  {
  }

  ghost predicate ProseEach(lines: seq<string>) {
    forall i :: 0 <= i < |lines| ==> Prose(lines[i])
  }

  /** What kind of line each is. */
  lemma BodyLineIs(r: Rendering, above: seq<string>, below: seq<string>, i: nat)
    requires ValidRendering(r) && ProseEach(above) && ProseEach(below) && i < |BodyLines(r, above, below)|
    ensures var line := BodyLines(r, above, below)[i];
      && OneLine(line) && (line == TABLE_START <==> i == |above|) && (line == TABLE_END <==> i == EndOf(r, above))
      && (IsStateLine(line) ==> |above| + 2 < i < EndOf(r, above) && RowTarget(line).Some?)
  {
    BodyAt(r, above, below, i);
    MarkersAreOneLine();
    HeadingsAreNoRows();
    if |above| + 2 < i < EndOf(r, above) {
      var sdk := Shown(r, r.sdks)[i - |above| - 3];
      assert sdk in r.sdks;
      RenderedRow(r, sdk);
      assert SdkRow(r, sdk)[0] == '|';
    }
  }

  lemma BodyHasTable(r: Rendering, above: seq<string>, below: seq<string>)
    requires ValidRendering(r) && ProseEach(above) && ProseEach(below)
    ensures var lines := BodyLines(r, above, below); HasTable(lines, |above|, EndOf(r, above)) && OneLineEach(lines)
  {
    var lines := BodyLines(r, above, below);
    forall i: nat | i < |lines|
      ensures OneLine(lines[i]) && (lines[i] == TABLE_START <==> i == |above|)
        && (lines[i] == TABLE_END <==> i == EndOf(r, above))
    {
      BodyLineIs(r, above, below, i);
    }
    FirstIndexIs(lines, TABLE_START, 0, |above|);
    FirstIndexIs(lines, TABLE_END, |above|, EndOf(r, above));
  }

  lemma Middle(a: seq<string>, t: seq<string>, b: seq<string>)
    requires |t| > 1
    ensures (a + t + b)[|a| + 1..|a| + |t| - 1] == t[1..|t| - 1]
  {
  }

  lemma TableInside(rows: seq<string>)
    ensures var t := [TABLE_START, HEADING, RULE] + rows + [TABLE_END]; t[1..|t| - 1] == [HEADING, RULE] + rows
  {
  }

  function Headed(rows: seq<string>): (all: seq<string>)
    ensures |all| == |rows| + 2 && forall i :: 2 <= i < |all| ==> all[i] == rows[i - 2]
  {
    [HEADING, RULE] + rows
  }

  /** The lines between the markers. */
  function Inside(r: Rendering): seq<string> {
    Headed(SdkRows(r, Shown(r, r.sdks)))
  }

  lemma HeadedHead(rows: seq<string>, i: nat)
    requires i < 2
    ensures RowTarget(Headed(rows)[i]) == None
  {
    HeadingsAreNoRows();
  }

  lemma BodyInside(r: Rendering, above: seq<string>, below: seq<string>)
    ensures EndOf(r, above) < |BodyLines(r, above, below)|
    ensures BodyLines(r, above, below)[|above| + 1..EndOf(r, above)] == Inside(r)
  {
    Middle(above, RenderedTable(r), below);
    TableInside(SdkRows(r, Shown(r, r.sdks)));
  }

  lemma RowOfBody(r: Rendering, i: nat)
    requires ValidRendering(r) && i < |Inside(r)|
    ensures RowTarget(Inside(r)[i]) == if i < 2 then None else Some(Shown(r, r.sdks)[i - 2].name)
  {
    if i < 2 {
      HeadedHead(SdkRows(r, Shown(r, r.sdks)), i);
    } else {
      assert Shown(r, r.sdks)[i - 2] in r.sdks;
      RenderedRow(r, Shown(r, r.sdks)[i - 2]);
    }
  }

  /** One row per target. */
  lemma InsideRows(r: Rendering)
    requires ValidRendering(r)
    ensures OneRowEach(Inside(r))
  {
    ShownDistinct(r, r.sdks);
    forall i, j | 0 <= i < j < |Inside(r)| && RowTarget(Inside(r)[i]).Some?
      ensures RowTarget(Inside(r)[i]) != RowTarget(Inside(r)[j])
    {
      RowOfBody(r, i);
      RowOfBody(r, j);
    }
  }

  /** A rendered body meets everything that reading, recording and regenerating ask of it. */
  lemma RenderedIsIssueBody(r: Rendering, above: seq<string>, below: seq<string>)
    requires ValidRendering(r) && ProseEach(above) && ProseEach(below)
    ensures var lines := SplitLines(Join(BodyLines(r, above, below)) + "\n");
      && lines == BodyLines(r, above, below)
      && IssueBody(lines, |above|, EndOf(r, above)) && StateInTable(lines, |above|, EndOf(r, above))
      && StateRowsOnly(lines)
  {
    var lines := BodyLines(r, above, below);
    BodyHasTable(r, above, below);
    BodyInside(r, above, below);
    InsideRows(r);
    SplitOfJoin(lines);
    forall i: nat | i < |lines| && IsStateLine(lines[i])
      ensures |above| < i < EndOf(r, above) && RowTarget(lines[i]).Some?
    {
      BodyLineIs(r, above, below, i);
    }
    forall i: nat | i < |lines| && !(|above| < i < EndOf(r, above)) ensures ReadRow(lines[i]).None? {
      if ReadRow(lines[i]).Some? {
        ReadIsState(lines[i]);
      }
    }
  }

  /** And its table shows, for every visible target, the row of its last decision. */
  lemma RenderedShows(r: Rendering, sdk: Sdk)
    requires ValidRendering(r) && sdk in r.sdks
    ensures var view := View(Inside(r));
      && (sdk.name in view <==> IsShown(r, sdk))
      && (IsShown(r, sdk) ==> view[sdk.name] == SdkRow(r, sdk))
  {
    InsideRows(r);
    ViewHas(Inside(r), sdk.name);
    if IsShown(r, sdk) {
      var i := ShownRow(r, sdk);
    }
    if sdk.name in View(Inside(r)) {
      var i :| 0 <= i < |Inside(r)| && Inside(r)[i] == View(Inside(r))[sdk.name];
      RowIsShown(r, sdk, i);
    }
  }

  lemma ShownRow(r: Rendering, sdk: Sdk) returns (i: nat)
    requires ValidRendering(r) && sdk in r.sdks && IsShown(r, sdk)
    ensures i < |Inside(r)| && Inside(r)[i] == SdkRow(r, sdk) && RowTarget(SdkRow(r, sdk)) == Some(sdk.name)
  {
    var k :| 0 <= k < |Shown(r, r.sdks)| && Shown(r, r.sdks)[k] == sdk;
    i := k + 2;
    RenderedRow(r, sdk);
  }

  lemma RowIsShown(r: Rendering, sdk: Sdk, i: nat)
    requires ValidRendering(r) && i < |Inside(r)| && RowTarget(Inside(r)[i]) == Some(sdk.name)
    ensures IsShown(r, sdk)
  {
    RowOfBody(r, i);
    assert Shown(r, r.sdks)[i - 2] in Shown(r, r.sdks);
  }

  /** Reading a rendered body gives exactly the recorded pull requests of its visible targets that get pull requests. */
  lemma RenderedReadsBack(r: Rendering, above: seq<string>, below: seq<string>, sdk: Sdk)
    requires ValidRendering(r) && ProseEach(above) && ProseEach(below) && sdk in r.sdks
    ensures var recorded := Recorded(BodyLines(r, above, below)); var o := LastOutcome(r.outcomes, sdk.name);
      && (sdk.name in recorded <==> IsShown(r, sdk) && sdk.automation == Pr && o.Some? && o.value.Published?)
      && (sdk.name in recorded ==> recorded[sdk.name] == o.value.pr)
  {
    RenderedIsIssueBody(r, above, below);
    BodyInside(r, above, below);
    RecordedIsView(BodyLines(r, above, below), |above|, EndOf(r, above));
    RenderedShows(r, sdk);
    RenderedReads(r, sdk);
  }
}
