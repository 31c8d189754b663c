/**
 Any run of audits over one tracker: deliveries that finish or stop after any of their writes, and
 edits of the issues between them.
 */
module TrackerRuns {
  import opened Wrappers
  import opened Text
  import opened Dicts
  import opened PropagationTable
  import opened PropagationEdits
  import opened AuditIds
  import opened AuditMarkers
  import opened Tracker

  /**
   How far a delivery comes: after so many findings, or after all and so many of the listed issues
   looked at for closing.
   */
  datatype Stop = InFindings(done: nat) | InClosing(seen: nat)

  datatype Step =
    | Deliver(report: Report)
    | Cut(report: Report, stop: Stop)
    | Edit(number: nat, body: string)      // the issue's body is rewritten
    | Toggle(number: nat)                  // somebody closes or reopens an issue

  /** The closings of the first `seen` listed issues. */
  function CloseSome(listed: seq<Issue>, findings: seq<Finding>, issues: seq<Issue>, seen: nat): (r: seq<Issue>)
    requires |listed| <= |issues|
    ensures |r| == |issues|
  {
    seq(|issues|, i requires 0 <= i < |issues| =>
      if i < |listed| && i < seen && IsStale(listed, findings, i) then issues[i].(isOpen := false) else issues[i])
  }

  /** What a delivery that stops has written. */
  function Written(listed: seq<Issue>, report: Report, stop: Stop): seq<Issue> {
    var done := if stop.InFindings? && stop.done < |report.findings| then stop.done else |report.findings|;
    match DeliverFindings(listed, report.findings[..done])
    case Failure(_) => listed
    case Success(issues) =>
      if stop.InClosing? && report.healthy then CloseSome(listed, report.findings, issues, stop.seen) else issues
  }

  /** The new body stands for the same finding, and is an index or not as before. */
  predicate SameMarkers(was: string, body: string) {
    FindingOf(body) == FindingOf(was) && (Contains(body, AUDIT_MARKER) <==> Contains(was, AUDIT_MARKER))
  }

  function Take(issues: seq<Issue>, step: Step): seq<Issue> {
    match step
    case Deliver(report) =>
      var d := Delivered(issues, report);
      if d.Success? then d.value else issues
    case Cut(report, stop) => Written(issues, report, stop)
    case Edit(number, body) =>
      if number < |issues| && SameMarkers(issues[number].body, body) then
        issues[number := issues[number].(body := body)]
      else issues
    case Toggle(number) =>
      if number < |issues| then issues[number := issues[number].(isOpen := !issues[number].isOpen)] else issues
  }

  function Run(issues: seq<Issue>, steps: seq<Step>): seq<Issue>
    decreases |steps|
  {
    if steps == [] then issues else Run(Take(issues, steps[0]), steps[1..])
  }

  ghost predicate IsStep(step: Step) {
    match step
    case Deliver(report) => IsReport(report)
    case Cut(report, _) => IsReport(report)
    case _ => true
  }

  // ---------------------------------------------------------------- edits of the table

  /** A finding's issue: its marker is the first line, and it is not the index. */
  ghost predicate IsFindingIssue(id: string, body: string) {
    IsFindingId(id) && MarkerFor(id) + "\n" <= body && !Contains(body, AUDIT_MARKER)
  }

  /** Edits of its table with rows that do not hold the index marker keep both markers as they are. */
  lemma TableEditKeepsMarkers(id: string, body: string, d: Dict)
    requires IsFindingIssue(id, body) && All(d, FreeRow(AUDIT_MARKER)) && Replaced(body, d).Success?
    ensures SameMarkers(body, Replaced(body, d).value) && FindingOf(body) == Some(id)
  {
    EditKeepsFinding(id, body, d);
    IndexMarkerIsOneLine();
    ReplacedIsFree(body, d, AUDIT_MARKER);
  }

  /** Recording outcomes is such an edit if no row it writes holds the index marker. */
  lemma {:induction false} OutcomeRowsAreFree(outcomes: seq<TableOutcome>, x: string)
    requires forall i :: 0 <= i < |outcomes| ==> !Contains(OutcomeRow(outcomes[i]), x)
    ensures All(OutcomeRows(outcomes), FreeRow(x))
  {
    if outcomes != [] {
      var n := |outcomes| - 1;
      OutcomeRowsAreFree(outcomes[..n], x);
      PutAll(OutcomeRows(outcomes[..n]), outcomes[n].target, OutcomeRow(outcomes[n]), FreeRow(x));
    }
  }

  /** A queued row never holds it: it has no `<`. */
  lemma {:induction false} QueuedRowsAreFree(targets: seq<string>)
    requires forall i :: 0 <= i < |targets| ==> IsTarget(targets[i])
    ensures All(QueuedRows(targets), FreeRow(AUDIT_MARKER))
  {
    if targets != [] {
      var n := |targets| - 1;
      QueuedRowsAreFree(targets[..n]);
      QueuedRowIsFree(targets[n]);
      PutAll(QueuedRows(targets[..n]), targets[n], QueuedRow(targets[n]), FreeRow(AUDIT_MARKER));
    }
  }

  lemma {:induction false} NoSuchChar(s: string, x: string)
    requires x != "" && x[0] !in s
    ensures !Contains(s, x)
  {
    if s != "" {
      assert s[0] in s;
      NoSuchChar(s[1..], x);
    }
  }

  lemma QueuedRowIsFree(t: string)
    requires IsTarget(t)
    ensures !Contains(QueuedRow(t), AUDIT_MARKER)
  {
    assert AUDIT_MARKER[0] == '<';
    assert '<' !in "| `" && '<' !in "` |" && '<' !in t;
    assert QueuedRow(t) == ("| `" + t + "` |") + (" " + "pr" + " | " + "Queued" + " | " + DASH + " |");
    assert '<' !in " " + "pr" + " | " + "Queued" + " | " + DASH + " |";
    NoSuchChar(QueuedRow(t), AUDIT_MARKER);
  }

  /** Queueing keeps the markers of a finding's issue, so it is a step of the runs below. */
  lemma QueueKeepsMarkers(id: string, body: string, targets: seq<string>)
    requires IsFindingIssue(id, body) && Replaced(body, QueuedRows(targets)).Success?
    requires forall i :: 0 <= i < |targets| ==> IsTarget(targets[i])
    ensures SameMarkers(body, Replaced(body, QueuedRows(targets)).value)
  {
    QueuedRowsAreFree(targets);
    TableEditKeepsMarkers(id, body, QueuedRows(targets));
  }

  // ---------------------------------------------------------------- every step keeps the invariant

  /** Issues that stand for the same things at the same places. */
  ghost predicate SameNames(vs: seq<View>, ws: seq<View>) {
    |vs| == |ws| && forall i :: 0 <= i < |vs| ==> ws[i].finding == vs[i].finding && ws[i].index == vs[i].index
  }

  lemma NamesKeepInv(vs: seq<View>, ws: seq<View>)
    requires Inv(vs) && SameNames(vs, ws)
    ensures Inv(ws)
  {
  }

  /** Writing some findings of a report keeps it. */
  lemma WithFindingsKeepsInv(vs: seq<View>, ids: seq<string>)
    requires Inv(vs) && Distinct(ids)
    ensures Inv(WithFindings(vs, ids))
  {
    var ws, news := WithFindings(vs, ids), NewViews(vs, ids);
    NewViewsAre(vs, ids);
    WithFindingsAt(vs, ids);
    forall i | 0 <= i < |ws|
      ensures i < |vs| ==> ws[i].finding == vs[i].finding && ws[i].index == vs[i].index
      ensures |vs| <= i ==> ws[i] == news[i - |vs|]
    {
      if i >= |vs| {
        assert ws[|vs| + (i - |vs|)] == news[i - |vs|];
      }
    }
    forall i, j | 0 <= i < j < |ws| && ws[i].finding.Some? ensures ws[i].finding != ws[j].finding {
      if i < |vs| <= j {
        NewAt(vs, ids, j - |vs|);
      }
    }
  }

  lemma CutKeepsInv(issues: seq<Issue>, report: Report, stop: Stop)
    requires Inv(Views(issues)) && IsReport(report)
    ensures Inv(Views(Written(issues, report, stop)))
  {
    var done := if stop.InFindings? && stop.done < |report.findings| then stop.done else |report.findings|;
    var some := report.findings[..done];
    FindingsWritten(issues, some);
    IdsAreDistinct(report);
    SomeIdsAreDistinct(report.findings, done);
    WithFindingsKeepsInv(Views(issues), Ids(some));
    var written := DeliverFindings(issues, some).value;
    if stop.InClosing? && report.healthy {
      NamesKeepInv(Views(written), Views(CloseSome(issues, report.findings, written, stop.seen)));
    }
  }

  lemma SomeIdsAreDistinct(findings: seq<Finding>, done: nat)
    requires done <= |findings| && Distinct(Ids(findings))
    ensures Distinct(Ids(findings[..done]))
  {
    assert forall i :: 0 <= i < done ==> Ids(findings[..done])[i] == Ids(findings)[i];
  }

  lemma StepKeepsInv(issues: seq<Issue>, step: Step)
    requires Inv(Views(issues)) && IsStep(step)
    ensures Inv(Views(Take(issues, step)))
  {
    match step
    case Deliver(report) => DeliveryKeepsInv(issues, report);
    case Cut(report, stop) => CutKeepsInv(issues, report, stop);
    case _ => NamesKeepInv(Views(issues), Views(Take(issues, step)));
  }

  /** Never two issues for one finding, never two index issues, over any run. */
  lemma {:induction false} RunKeepsInv(issues: seq<Issue>, steps: seq<Step>)
    requires Inv(Views(issues)) && forall i :: 0 <= i < |steps| ==> IsStep(steps[i])
    ensures Inv(Views(Run(issues, steps)))
    decreases |steps|
  {
    if steps != [] {
      StepKeepsInv(issues, steps[0]);
      RunKeepsInv(Take(issues, steps[0]), steps[1..]);
    }
  }

  /**
   From an empty tracker, after any run of finished and stopped deliveries and edits, a healthy delivery
   leaves exactly the findings it reports open.
   */
  lemma RunEndsExact(steps: seq<Step>, last: Report, id: string)
    requires (forall i :: 0 <= i < |steps| ==> IsStep(steps[i])) && IsReport(last) && last.healthy
    ensures Inv(Views(Run([], steps))) && DeliversExactly(Run([], steps), last, id)
  {
    RunKeepsInv([], steps);
    HealthyIsExact(Run([], steps), last, id);
  }
}
