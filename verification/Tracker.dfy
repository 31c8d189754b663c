/**
 `deliver_audit_report` of `agricola/audit.py`: one issue per finding and one index issue, updated in
 place over repeated audits. Titles, labels and links are not part of this model.
 */
module Tracker {
  import opened Wrappers
  import opened Text
  import opened TextLines
  import opened Dicts
  import opened PropagationTable
  import opened PropagationEdits
  import opened AuditIds
  import opened AuditMarkers

  datatype Issue = Issue(body: string, isOpen: bool)

  datatype Finding = Finding(id: string, body: string)

  /** `index`: the body of the index issue, links included. */
  datatype Report = Report(index: string, healthy: bool, findings: seq<Finding>)

  // ---------------------------------------------------------------- delivery

  /** `findings_by_marker`: the last issue listed with the marker. */
  function IssueOf(issues: seq<Issue>, id: string): (r: Option<nat>)
    ensures r.Some? ==> r.value < |issues| && FindingOf(issues[r.value].body) == Some(id)
    ensures r.None? ==> forall i :: 0 <= i < |issues| ==> FindingOf(issues[i].body) != Some(id)
  {
    if issues == [] then None
    else
      var n := |issues| - 1;
      if FindingOf(issues[n].body) == Some(id) then Some(n) else IssueOf(issues[..n], id)
  }

  predicate IsIndex(issue: Issue) {
    Contains(issue.body, AUDIT_MARKER)
  }

  /** `rollup`: the first issue listed with the index marker. */
  function IndexOf(issues: seq<Issue>, from: nat): (r: Option<nat>)
    requires from <= |issues|
    ensures r.Some? ==> from <= r.value < |issues| && IsIndex(issues[r.value])
    ensures r.None? ==> forall i :: from <= i < |issues| ==> !IsIndex(issues[i])
    decreases |issues| - from
  {
    if from == |issues| then None
    else if IsIndex(issues[from]) then Some(from)
    else IndexOf(issues, from + 1)
  }

  predicate IsReported(findings: seq<Finding>, id: string) {
    exists i :: 0 <= i < |findings| && findings[i].id == id
  }

  /** One finding: a new issue, or the old one rewritten and reopened. `listed` is the listing at the start. */
  function DeliverFinding(listed: seq<Issue>, issues: seq<Issue>, f: Finding): Result<seq<Issue>>
    requires |listed| <= |issues|
  {
    match IssueOf(listed, f.id)
    case None => Success(issues + [Issue(f.body, true)])
    case Some(i) =>
      match Preserve(f.body, listed[i].body)
      case Failure(e) => Failure(e)
      case Success(body) => Success(issues[i := Issue(body, true)])
  }

  function DeliverFindings(listed: seq<Issue>, findings: seq<Finding>): (r: Result<seq<Issue>>)
    ensures r.Success? ==> |listed| <= |r.value|
  {
    if findings == [] then Success(listed)
    else
      var n := |findings| - 1;
      match DeliverFindings(listed, findings[..n])
      case Failure(e) => Failure(e)
      case Success(issues) => DeliverFinding(listed, issues, findings[n])
  }

  /** The issue at `i` is a listed open finding that the report does not name. */
  predicate IsStale(listed: seq<Issue>, findings: seq<Finding>, i: nat)
    requires i < |listed|
  {
    var id := FindingOf(listed[i].body);
    id.Some? && IssueOf(listed, id.value) == Some(i) && !IsReported(findings, id.value) && listed[i].isOpen
  }

  function CloseStale(listed: seq<Issue>, findings: seq<Finding>, issues: seq<Issue>): (r: seq<Issue>)
    requires |listed| <= |issues|
    ensures |r| == |issues|
  {
    seq(|issues|, i requires 0 <= i < |issues| =>
      if i < |listed| && IsStale(listed, findings, i) then issues[i].(isOpen := false) else issues[i])
  }

  function DeliverIndex(listed: seq<Issue>, issues: seq<Issue>, body: string): seq<Issue>
    requires |listed| <= |issues|
  {
    match IndexOf(listed, 0)
    case None => issues + [Issue(body, true)]
    case Some(i) => issues[i := Issue(body, true)]
  }

  /** After the findings: stale ones are closed if the audit was healthy, and the index is written. */
  function Finished(listed: seq<Issue>, issues: seq<Issue>, report: Report): seq<Issue>
    requires |listed| <= |issues|
  {
    DeliverIndex(listed, if report.healthy then CloseStale(listed, report.findings, issues) else issues, report.index)
  }

  function Delivered(listed: seq<Issue>, report: Report): Result<seq<Issue>> {
    match DeliverFindings(listed, report.findings)
    case Failure(e) => Failure(e)
    case Success(issues) => Success(Finished(listed, issues, report))
  }

  /** The delivery of finding `k` fails, and `issues` is what was written before it. */
  ghost predicate StopsAt(listed: seq<Issue>, findings: seq<Finding>, issues: seq<Issue>, k: nat) {
    && k < |findings|
    && DeliverFindings(listed, findings[..k]) == Success(issues)
    && DeliverFindings(listed, findings[..k + 1]).Failure?
  }

  class IssueTracker {
    var issues: seq<Issue>

    constructor ()
      ensures issues == []
    {
      issues := [];
    }

    method WriteFindings(listed: seq<Issue>, findings: seq<Finding>) returns (r: Result<bool>)
      requires issues == listed
      modifies this
      ensures r.Success? ==> DeliverFindings(listed, findings) == Success(issues)
      ensures r.Failure? ==> exists k :: StopsAt(listed, findings, issues, k)
    {
      for k := 0 to |findings|
        invariant DeliverFindings(listed, findings[..k]) == Success(issues)
      {
        assert findings[..k + 1][..k] == findings[..k];
        var f := findings[k];
        var found := IssueOf(listed, f.id);
        if found.None? {
          issues := issues + [Issue(f.body, true)];
        } else {
          var body := PreservePropagationState(f.body, listed[found.value].body);
          if body.Failure? {
            assert StopsAt(listed, findings, issues, k);
            return Failure(body.error);
          }
          issues := issues[found.value := Issue(body.value, true)];
        }
      }
      assert findings[..|findings|] == findings;
      return Success(true);
    }

    method CloseUnreported(listed: seq<Issue>, findings: seq<Finding>)
      requires |listed| <= |issues|
      modifies this
      ensures issues == CloseStale(listed, findings, old(issues))
    {
      for i := 0 to |listed|
        invariant |issues| == |old(issues)|
        invariant forall k :: 0 <= k < i ==> issues[k] == CloseStale(listed, findings, old(issues))[k]
        invariant forall k :: i <= k < |issues| ==> issues[k] == old(issues)[k]
      {
        if IsStale(listed, findings, i) {
          issues := issues[i := issues[i].(isOpen := false)];
        }
      }
    }

    method WriteIndex(listed: seq<Issue>, body: string)
      requires |listed| <= |issues|
      modifies this
      ensures issues == DeliverIndex(listed, old(issues), body)
    {
      var index := IndexOf(listed, 0);
      if index.None? {
        issues := issues + [Issue(body, true)];
      } else {
        issues := issues[index.value := Issue(body, true)];
      }
    }

    method Finish(listed: seq<Issue>, report: Report)
      requires |listed| <= |issues|
      modifies this
      ensures issues == Finished(listed, old(issues), report)
    {
      if report.healthy {
        CloseUnreported(listed, report.findings);
      }
      WriteIndex(listed, report.index);
    }

    /** A failure leaves the tracker after the findings delivered before it. */
    method Deliver(report: Report) returns (r: Result<bool>)
      modifies this
      ensures r.Success? ==> Delivered(old(issues), report) == Success(issues)
      ensures r.Failure? ==> exists k :: StopsAt(old(issues), report.findings, issues, k)
    {
      var listed := issues;
      r := WriteFindings(listed, report.findings);
      if r.Success? {
        Finish(listed, report);
      }
    }
  }

  // ---------------------------------------------------------------- what a delivery writes

  /** A rendered finding body: its own marker as first line, no index marker, a table that can be edited or none. */
  ghost predicate IsFindingBody(f: Finding) {
    && IsFindingId(f.id)
    && MarkerFor(f.id) + "\n" <= f.body
    && !Contains(f.body, AUDIT_MARKER)
    && (TABLE_START !in SplitLines(f.body) || exists start, end :: HasTableIn(f.body, start, end))
  }

  /** A rendered index: its marker, and no finding's marker as first line. */
  ghost predicate IsIndexBody(body: string) {
    Contains(body, AUDIT_MARKER) && FindingOf(body).None?
  }

  ghost predicate IsReport(report: Report) {
    && (forall i :: 0 <= i < |report.findings| ==> IsFindingBody(report.findings[i]))
    && (forall i, j :: 0 <= i < j < |report.findings| ==> report.findings[i].id != report.findings[j].id)
    && IsIndexBody(report.index)
  }

  lemma BodyNames(f: Finding)
    requires IsFindingBody(f)
    ensures FindingOf(f.body) == Some(f.id)
  {
    assert MarkerFor(f.id) <= MarkerFor(f.id) + "\n" <= f.body;
    MarkerFirst(f.id, f.body);
  }

  lemma MarkerIsInk(id: string)
    requires IsFindingId(id)
    ensures var m := MarkerFor(id); m != "" && OneLine(m) && m != TABLE_START && !IsSpace(m[|m| - 1])
  {
    var m := MarkerFor(id);
    assert m[|m| - 1] == MARKER_END[3] == '>';
    assert m[14] == FINDING_PREFIX[14] == 'a' && TABLE_START[14] == 'p';
    assert OneLine(FINDING_PREFIX) && OneLine(MARKER_END);
    assert OneLine(id) by {
      forall i | 0 <= i < |id| ensures !IsBreak(id[i]) {
        if i < 4 {
          assert id[i] == id[..4][i];
        } else if i < 8 {
          assert id[i] == id[4..8][i - 4];
        } else if i > 8 {
          assert id[i] == id[9..][i - 9];
        }
      }
    }
  }

  lemma PreserveSucceeds(f: Finding, previous: string)
    requires IsFindingBody(f)
    ensures Preserve(f.body, previous).Success?
  {
    WithoutTable(f.body, Preserved(SplitLines(f.body), PreviousRows(SplitLines(previous))));
  }

  lemma FirstLineParts(m: string, body: string) returns (rest: string)
    requires m + "\n" <= body
    ensures body == m + ("\n" + rest) && m <= body
  {
    rest := body[|m + "\n"|..];
    assert body == (m + "\n") + rest;
  }

  /** Whatever happens to its table, a body keeps its finding. */
  lemma EditKeepsFinding(id: string, body: string, d: Dict)
    requires IsFindingId(id) && MarkerFor(id) + "\n" <= body && Replaced(body, d).Success?
    ensures FindingOf(body) == Some(id) && FindingOf(Replaced(body, d).value) == Some(id)
  {
    var m := MarkerFor(id);
    var rest := FirstLineParts(m, body);
    MarkerIsInk(id);
    ReplacedKeepsFirstLine(body, d, m, rest);
    MarkerFirst(id, body);
    MarkerFirst(id, Replaced(body, d).value);
  }

  lemma PreservedKeepsMarker(f: Finding, previous: string)
    requires IsFindingBody(f) && Preserve(f.body, previous).Success?
    ensures FindingOf(Preserve(f.body, previous).value) == Some(f.id)
  {
    EditKeepsFinding(f.id, f.body, Preserved(SplitLines(f.body), PreviousRows(SplitLines(previous))));
  }

  lemma IndexMarkerIsOneLine()
    ensures OneLine(AUDIT_MARKER) && AUDIT_MARKER != ""
  {
  }

  /** The body written for a finding carries its marker and no index marker, whatever the old body was. */
  lemma PreservedBody(f: Finding, previous: string)
    requires IsFindingBody(f) && !Contains(previous, AUDIT_MARKER)
    ensures Preserve(f.body, previous).Success?
    ensures FindingOf(Preserve(f.body, previous).value) == Some(f.id)
    ensures !Contains(Preserve(f.body, previous).value, AUDIT_MARKER)
  {
    PreserveSucceeds(f, previous);
    PreservedKeepsMarker(f, previous);
    IndexMarkerIsOneLine();
    PreservedBodyIsFree(f.body, previous, AUDIT_MARKER);
  }

  // ---------------------------------------------------------------- issues as what they stand for

  /** An issue without its text: the finding it belongs to, whether it is the index, whether it is open. */
  datatype View = View(finding: Option<string>, index: bool, isOpen: bool)

  function ViewOf(issue: Issue): View {
    View(FindingOf(issue.body), IsIndex(issue), issue.isOpen)
  }

  function Views(issues: seq<Issue>): (vs: seq<View>)
    ensures |vs| == |issues| && forall i :: 0 <= i < |vs| ==> vs[i] == ViewOf(issues[i])
  {
    seq(|issues|, i requires 0 <= i < |issues| => ViewOf(issues[i]))
  }

  /** One issue per finding, one index issue, and no issue is both. */
  ghost predicate Inv(vs: seq<View>) {
    && (forall i, j :: 0 <= i < j < |vs| && vs[i].finding.Some? ==> vs[i].finding != vs[j].finding)
    && (forall i, j :: 0 <= i < j < |vs| ==> !(vs[i].index && vs[j].index))
    && (forall i :: 0 <= i < |vs| ==> !(vs[i].finding.Some? && vs[i].index))
  }

  function Ids(findings: seq<Finding>): (ids: seq<string>)
    ensures |ids| == |findings| && forall i :: 0 <= i < |ids| ==> ids[i] == findings[i].id
  {
    seq(|findings|, i requires 0 <= i < |findings| => findings[i].id)
  }

  predicate Shows(vs: seq<View>, id: string) {
    exists i :: 0 <= i < |vs| && vs[i].finding == Some(id)
  }

  function Fresh(id: string): View {
    View(Some(id), false, true)
  }

  function Reopened(v: View, ids: seq<string>): View {
    if v.finding.Some? && v.finding.value in ids then v.(isOpen := true) else v
  }

  /** Reported findings that have an issue are open again, the others get a new one. */
  function WithFindings(vs: seq<View>, ids: seq<string>): seq<View> {
    seq(|vs|, i requires 0 <= i < |vs| => Reopened(vs[i], ids)) + NewViews(vs, ids)
  }

  function NewViews(vs: seq<View>, ids: seq<string>): seq<View> {
    if ids == [] then []
    else
      var n := |ids| - 1;
      NewViews(vs, ids[..n]) + if Shows(vs, ids[n]) then [] else [Fresh(ids[n])]
  }

  lemma IssueOfView(issues: seq<Issue>, id: string)
    ensures IssueOf(issues, id).Some? <==> Shows(Views(issues), id)
    ensures Inv(Views(issues)) ==>
      forall i :: 0 <= i < |issues| && FindingOf(issues[i].body) == Some(id) ==> IssueOf(issues, id) == Some(i)
  {
    var r := IssueOf(issues, id);
    var vs := Views(issues);
    if r.Some? {
      assert vs[r.value].finding == Some(id);
      forall i | 0 <= i < |issues| && FindingOf(issues[i].body) == Some(id) && Inv(vs) ensures i == r.value {
        assert vs[i].finding == vs[r.value].finding;
      }
    }
    if i :| 0 <= i < |vs| && vs[i].finding == Some(id) {
      assert FindingOf(issues[i].body) == Some(id);
    }
  }

  lemma DeliverLast(listed: seq<Issue>, findings: seq<Finding>)
    requires findings != [] && DeliverFindings(listed, findings[..|findings| - 1]).Success?
    ensures var n := |findings| - 1;
      DeliverFindings(listed, findings)
      == DeliverFinding(listed, DeliverFindings(listed, findings[..n]).value, findings[n])
  {
  }

  lemma IdsLast(findings: seq<Finding>)
    requires findings != []
    ensures var n := |findings| - 1; Ids(findings) == Ids(findings[..n]) + [findings[n].id]
  {
  }

  lemma NothingWritten(vs: seq<View>)
    ensures vs == WithFindings(vs, [])
  {
  }

  /** Writing the findings does to the views what `WithFindings` says. */
  lemma {:induction false} FindingsWritten(listed: seq<Issue>, findings: seq<Finding>)
    requires Inv(Views(listed)) && forall i :: 0 <= i < |findings| ==> IsFindingBody(findings[i])
    ensures DeliverFindings(listed, findings).Success?
    ensures Views(DeliverFindings(listed, findings).value) == WithFindings(Views(listed), Ids(findings))
    decreases |findings|
  {
    if findings == [] {
      NothingWritten(Views(listed));
      assert Ids(findings) == [];
    } else {
      var n := |findings| - 1;
      FindingsWritten(listed, findings[..n]);
      FindingWritten(listed, DeliverFindings(listed, findings[..n]).value, Ids(findings[..n]), findings[n]);
      DeliverLast(listed, findings);
      IdsLast(findings);
    }
  }

  lemma FindingWritten(listed: seq<Issue>, issues: seq<Issue>, ids: seq<string>, f: Finding)
    requires Inv(Views(listed)) && IsFindingBody(f)
    requires |listed| <= |issues| && Views(issues) == WithFindings(Views(listed), ids)
    ensures DeliverFinding(listed, issues, f).Success?
    ensures Views(DeliverFinding(listed, issues, f).value) == WithFindings(Views(listed), ids + [f.id])
  {
    var vs := Views(listed);
    assert (ids + [f.id])[..|ids|] == ids;
    IssueOfView(listed, f.id);
    match IssueOf(listed, f.id)
    case None =>
      BodyNames(f);
      NewIssueWritten(vs, issues, ids, f);
    case Some(i) =>
      assert vs[i].finding.Some?;
      assert !vs[i].index;
      PreservedBody(f, listed[i].body);
      OldIssueWritten(vs, issues, ids, i, Issue(Preserve(f.body, listed[i].body).value, true), f.id);
  }

  lemma NewIssueWritten(vs: seq<View>, issues: seq<Issue>, ids: seq<string>, f: Finding)
    requires Views(issues) == WithFindings(vs, ids) && !Shows(vs, f.id)
    requires FindingOf(f.body) == Some(f.id) && !IsIndex(Issue(f.body, true))
    ensures Views(issues + [Issue(f.body, true)]) == WithFindings(vs, ids + [f.id])
  {
    var ids' := ids + [f.id];
    assert ids'[..|ids|] == ids && ids'[|ids|] == f.id;
    assert NewViews(vs, ids') == NewViews(vs, ids) + [Fresh(f.id)];
    forall i | 0 <= i < |vs| ensures Reopened(vs[i], ids') == Reopened(vs[i], ids) {
      assert vs[i].finding != Some(f.id);
    }
    assert Views(issues + [Issue(f.body, true)]) == Views(issues) + [Fresh(f.id)];
  }

  lemma OldIssueWritten(vs: seq<View>, issues: seq<Issue>, ids: seq<string>, i: nat, issue: Issue, id: string)
    requires Inv(vs) && i < |vs| && |vs| <= |issues| && Views(issues) == WithFindings(vs, ids)
    requires vs[i].finding == Some(id) && ViewOf(issue) == Fresh(id)
    ensures Views(issues[i := issue]) == WithFindings(vs, ids + [id])
  {
    var ids' := ids + [id];
    assert ids'[..|ids|] == ids && ids'[|ids|] == id;
    assert Shows(vs, id);
    assert NewViews(vs, ids') == NewViews(vs, ids);
    forall k | 0 <= k < |vs| && k != i ensures Reopened(vs[k], ids') == Reopened(vs[k], ids) {
      assert vs[k].finding != Some(id);
    }
    assert Reopened(vs[i], ids') == Fresh(id);
    forall k | 0 <= k < |issues| ensures Views(issues[i := issue])[k] == WithFindings(vs, ids')[k] {
      assert Views(issues)[k] == WithFindings(vs, ids)[k];
    }
  }

  // ---------------------------------------------------------------- the whole delivery

  function Closed(v: View, was: View, ids: seq<string>): View {
    if was.finding.Some? && was.finding.value !in ids && was.isOpen then v.(isOpen := false) else v
  }

  /** The views after a delivery; the listed issues keep their places and what they stand for. */
  function ViewAfter(was: View, ids: seq<string>, healthy: bool): View {
    if was.index then was.(isOpen := true)
    else if was.finding.None? then was
    else if was.finding.value in ids then was.(isOpen := true)
    else if healthy then was.(isOpen := false)
    else was
  }

  lemma StaleExactly(listed: seq<Issue>, findings: seq<Finding>, i: nat)
    requires Inv(Views(listed)) && i < |listed|
    ensures IsStale(listed, findings, i) <==>
      var v := Views(listed)[i]; v.finding.Some? && v.finding.value !in Ids(findings) && v.isOpen
  {
    var v := Views(listed)[i];
    if v.finding.Some? {
      IssueOfView(listed, v.finding.value);
      ReportedIds(findings, v.finding.value);
    }
  }

  lemma CloseWritten(listed: seq<Issue>, findings: seq<Finding>, issues: seq<Issue>)
    requires Inv(Views(listed)) && |listed| <= |issues|
    ensures var vs, ws, after := Views(listed), Views(issues), Views(CloseStale(listed, findings, issues));
      && |after| == |ws|
      && forall i :: 0 <= i < |ws| ==> after[i] == if i < |vs| then Closed(ws[i], vs[i], Ids(findings)) else ws[i]
  {
    forall i | 0 <= i < |listed| {
      StaleExactly(listed, findings, i);
    }
  }

  lemma IndexWritten(listed: seq<Issue>, issues: seq<Issue>, body: string)
    requires |listed| <= |issues| && IsIndexBody(body) && Inv(Views(listed))
    ensures var vs, ws, after := Views(listed), Views(issues), Views(DeliverIndex(listed, issues, body));
      && (forall i :: 0 <= i < |ws| ==> after[i] == if i < |vs| && vs[i].index then View(None, true, true) else ws[i])
      && (if exists i :: 0 <= i < |vs| && vs[i].index then |after| == |ws|
          else |after| == |ws| + 1 && after[|ws|] == View(None, true, true))
  {
    var vs := Views(listed);
    var r := IndexOf(listed, 0);
    if r.Some? {
      assert vs[r.value].index;
      forall i | 0 <= i < |vs| && vs[i].index ensures i == r.value {
      }
    } else {
      forall i | 0 <= i < |vs| ensures !vs[i].index {
        assert !IsIndex(listed[i]);
      }
    }
  }

  ghost predicate IsNew(vs: seq<View>, ids: seq<string>, v: View) {
    v.finding.Some? && v == Fresh(v.finding.value) && v.finding.value in ids && !Shows(vs, v.finding.value)
  }

  /** The new issues of a delivery: one for each reported finding that had none. */
  lemma {:induction false} NewViewsAre(vs: seq<View>, ids: seq<string>)
    requires Distinct(ids)
    ensures var news := NewViews(vs, ids);
      && (forall i :: 0 <= i < |news| ==> IsNew(vs, ids, news[i]))
      && (forall i, j :: 0 <= i < j < |news| ==> news[i].finding != news[j].finding)
      && (forall id :: id in ids && !Shows(vs, id) ==> Fresh(id) in news)
  {
    if ids != [] {
      var n := |ids| - 1;
      NewViewsAre(vs, ids[..n]);
      assert ids == ids[..n] + [ids[n]];
      assert ids[n] !in ids[..n];
    }
  }

  lemma NewAt(vs: seq<View>, ids: seq<string>, k: nat)
    requires Distinct(ids) && k < |NewViews(vs, ids)|
    ensures IsNew(vs, ids, NewViews(vs, ids)[k])
  {
    NewViewsAre(vs, ids);
  }

  /** Places and meaning of all issues after a delivery. */
  ghost predicate After(vs: seq<View>, ids: seq<string>, healthy: bool, after: seq<View>) {
    var news := NewViews(vs, ids);
    && |after| >= |vs| + |news|
    && (forall i :: 0 <= i < |vs| ==> after[i] == ViewAfter(vs[i], ids, healthy))
    && (forall i :: 0 <= i < |news| ==> after[|vs| + i] == news[i])
    && (forall i :: |vs| + |news| <= i < |after| ==> after[i] == View(None, true, true))
    && |after| == |vs| + |news| + if exists i :: 0 <= i < |vs| && vs[i].index then 0 else 1
  }

  lemma WithFindingsAt(vs: seq<View>, ids: seq<string>)
    ensures var ws, news := WithFindings(vs, ids), NewViews(vs, ids);
      && |ws| == |vs| + |news|
      && (forall i :: 0 <= i < |vs| ==> ws[i] == Reopened(vs[i], ids))
      && (forall i :: 0 <= i < |news| ==> ws[|vs| + i] == news[i])
  {
  }

  /** Closing, then writing the index, for one listed issue and for the others. */
  lemma ViewAfterIs(was: View, ids: seq<string>, healthy: bool)
    requires !(was.finding.Some? && was.index)
    ensures var closed := if healthy then Closed(Reopened(was, ids), was, ids) else Reopened(was, ids);
      ViewAfter(was, ids, healthy) == if was.index then View(None, true, true) else closed
  {
  }

  lemma FinishedViews(listed: seq<Issue>, issues: seq<Issue>, report: Report)
    requires Inv(Views(listed)) && IsIndexBody(report.index) && |listed| <= |issues|
    requires Views(issues) == WithFindings(Views(listed), Ids(report.findings))
    ensures After(Views(listed), Ids(report.findings), report.healthy, Views(Finished(listed, issues, report)))
  {
    var closed := if report.healthy then CloseStale(listed, report.findings, issues) else issues;
    CloseWritten(listed, report.findings, issues);
    IndexWritten(listed, closed, report.index);
    AfterParts(Views(listed), Ids(report.findings), report.healthy, Views(issues), Views(closed),
               Views(Finished(listed, issues, report)));
  }

  lemma AfterParts(
      vs: seq<View>, ids: seq<string>, healthy: bool, ws: seq<View>, closed: seq<View>, after: seq<View>)
    requires Inv(vs) && ws == WithFindings(vs, ids) && |closed| == |ws|
    requires forall i :: 0 <= i < |ws| ==>
      closed[i] == if healthy && i < |vs| then Closed(ws[i], vs[i], ids) else ws[i]
    requires |after| >= |ws|
    requires forall i :: 0 <= i < |ws| ==>
      after[i] == if i < |vs| && vs[i].index then View(None, true, true) else closed[i]
    requires if exists i :: 0 <= i < |vs| && vs[i].index then |after| == |ws|
             else |after| == |ws| + 1 && after[|ws|] == View(None, true, true)
    ensures After(vs, ids, healthy, after)
  {
    WithFindingsAt(vs, ids);
    forall i | 0 <= i < |vs| ensures after[i] == ViewAfter(vs[i], ids, healthy) {
      ViewAfterIs(vs[i], ids, healthy);
      assert ws[i] == Reopened(vs[i], ids);
    }
    forall i | 0 <= i < |NewViews(vs, ids)| ensures after[|vs| + i] == NewViews(vs, ids)[i] {
      assert ws[|vs| + i] == NewViews(vs, ids)[i];
    }
  }

  /** A delivery of a rendered report never fails, and this is its effect. */
  lemma DeliveryEffect(listed: seq<Issue>, report: Report)
    requires Inv(Views(listed)) && IsReport(report)
    ensures Delivered(listed, report).Success?
    ensures After(Views(listed), Ids(report.findings), report.healthy, Views(Delivered(listed, report).value))
  {
    FindingsWritten(listed, report.findings);
    FinishedViews(listed, DeliverFindings(listed, report.findings).value, report);
  }

  lemma IdsAreDistinct(report: Report)
    requires IsReport(report)
    ensures Distinct(Ids(report.findings))
  {
  }

  lemma AfterKeepsInv(vs: seq<View>, ids: seq<string>, healthy: bool, after: seq<View>)
    requires Inv(vs) && Distinct(ids) && After(vs, ids, healthy, after)
    ensures Inv(after)
  {
    NewViewsAre(vs, ids);
    var news := NewViews(vs, ids);
    var m := |vs| + |news|;
    forall i | 0 <= i < |after|
      ensures i < |vs| ==> after[i].finding == vs[i].finding && after[i].index == vs[i].index
      ensures |vs| <= i < m ==> after[i] == news[i - |vs|]
      ensures m <= i ==> after[i] == View(None, true, true)
    {
      if |vs| <= i < m {
        assert after[|vs| + (i - |vs|)] == news[i - |vs|];
      }
    }
    forall i, j | 0 <= i < j < |after| && after[i].finding.Some? ensures after[i].finding != after[j].finding {
      if i < |vs| <= j < m {
        NewAt(vs, ids, j - |vs|);
      }
    }
  }

  /** Never two issues for one finding, never two index issues, over any delivery. */
  lemma DeliveryKeepsInv(listed: seq<Issue>, report: Report)
    requires Inv(Views(listed)) && IsReport(report)
    ensures Delivered(listed, report).Success? && Inv(Views(Delivered(listed, report).value))
  {
    DeliveryEffect(listed, report);
    IdsAreDistinct(report);
    AfterKeepsInv(Views(listed), Ids(report.findings), report.healthy, Views(Delivered(listed, report).value));
  }

  /** An unhealthy report closes nothing. */
  lemma UnhealthyClosesNothing(listed: seq<Issue>, report: Report, i: nat)
    requires Inv(Views(listed)) && IsReport(report) && !report.healthy && i < |listed| && listed[i].isOpen
    ensures Delivered(listed, report).Success? && i < |Delivered(listed, report).value|
    ensures Delivered(listed, report).value[i].isOpen
  {
    DeliveryEffect(listed, report);
    assert Views(Delivered(listed, report).value)[i] == ViewAfter(Views(listed)[i], Ids(report.findings), false);
  }

  predicate HasOpen(issues: seq<Issue>, id: string) {
    exists i :: 0 <= i < |issues| && issues[i].isOpen && FindingOf(issues[i].body) == Some(id)
  }

  lemma HasOpenView(issues: seq<Issue>, id: string)
    ensures HasOpen(issues, id) <==>
      View(Some(id), false, true) in Views(issues) || View(Some(id), true, true) in Views(issues)
  {
    var vs := Views(issues);
    if i :| 0 <= i < |issues| && issues[i].isOpen && FindingOf(issues[i].body) == Some(id) {
      assert vs[i] == View(Some(id), IsIndex(issues[i]), true);
    }
  }

  /** After any delivery every reported finding is open; after a healthy one, no other finding is. */
  lemma OpenAreReported(listed: seq<Issue>, report: Report, id: string)
    requires Inv(Views(listed)) && IsReport(report)
    ensures Delivered(listed, report).Success?
    ensures IsReported(report.findings, id) ==> HasOpen(Delivered(listed, report).value, id)
    ensures report.healthy && HasOpen(Delivered(listed, report).value, id) ==> IsReported(report.findings, id)
  {
    DeliveryEffect(listed, report);
    IdsAreDistinct(report);
    var issues := Delivered(listed, report).value;
    OpenViews(Views(listed), Ids(report.findings), report.healthy, Views(issues), id);
    HasOpenView(issues, id);
    ReportedIds(report.findings, id);
  }

  lemma ReportedIds(findings: seq<Finding>, id: string)
    ensures IsReported(findings, id) <==> id in Ids(findings)
  {
    var ids := Ids(findings);
    if k :| 0 <= k < |findings| && findings[k].id == id {
      assert ids[k] == id;
    }
    if k :| 0 <= k < |ids| && ids[k] == id {
      assert findings[k].id == id;
    }
  }

  lemma ReportedIsOpen(vs: seq<View>, ids: seq<string>, healthy: bool, after: seq<View>, id: string)
    requires Inv(vs) && Distinct(ids) && After(vs, ids, healthy, after) && id in ids
    ensures Fresh(id) in after
  {
    if Shows(vs, id) {
      var i :| 0 <= i < |vs| && vs[i].finding == Some(id);
      assert after[i] == ViewAfter(vs[i], ids, healthy) == Fresh(id);
    } else {
      NewViewsAre(vs, ids);
      var news := NewViews(vs, ids);
      var i :| 0 <= i < |news| && news[i] == Fresh(id);
      assert after[|vs| + i] == Fresh(id);
    }
  }

  /** An issue is never both kinds, and stays open after a healthy delivery only if it is reported. */
  lemma OldIsNoOther(v: View, ids: seq<string>, healthy: bool, id: string)
    requires !(v.index && v.finding.Some?)
    ensures ViewAfter(v, ids, healthy) != View(Some(id), true, true)
    ensures healthy && ViewAfter(v, ids, healthy) == Fresh(id) ==> id in ids
  {
  }

  lemma NewIsReported(vs: seq<View>, ids: seq<string>, j: nat)
    requires Distinct(ids) && j < |NewViews(vs, ids)|
    ensures var v := NewViews(vs, ids)[j]; v.finding.Some? && v == Fresh(v.finding.value) && v.finding.value in ids
  {
    NewViewsAre(vs, ids);
    assert IsNew(vs, ids, NewViews(vs, ids)[j]);
  }

  lemma OpenViews(vs: seq<View>, ids: seq<string>, healthy: bool, after: seq<View>, id: string)
    requires Inv(vs) && Distinct(ids) && After(vs, ids, healthy, after)
    ensures id in ids ==> Fresh(id) in after
    ensures View(Some(id), true, true) !in after
    ensures healthy && Fresh(id) in after ==> id in ids
  {
    if id in ids {
      ReportedIsOpen(vs, ids, healthy, after, id);
    }
    var news := NewViews(vs, ids);
    forall i | 0 <= i < |after|
      ensures after[i] != View(Some(id), true, true)
      ensures healthy && after[i] == Fresh(id) ==> id in ids
    {
      if |vs| <= i < |vs| + |news| {
        NewIsReported(vs, ids, i - |vs|);
        assert after[|vs| + (i - |vs|)] == news[i - |vs|];
      } else if i < |vs| {
        assert after[i] == ViewAfter(vs[i], ids, healthy);
        OldIsNoOther(vs[i], ids, healthy, id);
      }
    }
  }

  /** The delivery succeeds, and `id` has an open issue exactly if it is reported. */
  ghost predicate DeliversExactly(listed: seq<Issue>, report: Report, id: string) {
    && Delivered(listed, report).Success?
    && (HasOpen(Delivered(listed, report).value, id) <==> IsReported(report.findings, id))
  }

  lemma HealthyIsExact(listed: seq<Issue>, report: Report, id: string)
    requires Inv(Views(listed)) && IsReport(report) && report.healthy
    ensures DeliversExactly(listed, report, id)
  {
    OpenAreReported(listed, report, id);
  }
}
