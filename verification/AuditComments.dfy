/**
 `_handle_audit_comment` of `agricola/service.py`: commands on a finding issue, against the recorded
 pull requests that its body shows.
 */
module AuditComments {
  import opened Wrappers
  import opened TextLines
  import opened PropagationTable
  import opened PropagationEdits
  import opened PropagationReader
  import opened PropagationRender
  import opened Remediation

  /** `Other` are the verbs that finding issues do not support. */
  datatype Command = Status | Fix(targets: seq<string>, all: bool, instruction: Option<string>) | Other

  /**
   `enabled`: the affected targets with draft pull requests. `heads`: the head of a recorded pull
   request, if open.
   */
  datatype Finding = Finding(id: string, affected: seq<string>, enabled: seq<string>, heads: string -> Option<string>)

  datatype Request = Request(target: string, key: string, instruction: Option<string>, revision: Option<string>)

  datatype Queue = Queue(requests: seq<Request>, initial: seq<string>)

  /** The new body of the issue and the queued requests, or the error reply. */
  datatype Reply = Rejected | Accepted(body: string, requests: seq<Request>)

  function InitialKey(f: Finding, t: string): string {
    "audit:" + f.id + ":" + t
  }

  function RevisionKey(f: Finding, t: string, head: string): string {
    "revise:audit:" + f.id + ":" + t + ":" + (if |head| > 12 then head[..12] else head)
  }

  predicate IsScheduled(q: Queue, t: string) {
    exists i :: 0 <= i < |q.requests| && q.requests[i].target == t
  }

  /** One target of one command. */
  function OnTarget(f: Finding, recorded: map<string, string>, instruction: Option<string>, q: Queue,
    t: string): Queue {
    if IsScheduled(q, t) then q
    else if t in recorded then
      if instruction.None? || f.heads(recorded[t]).None? then q
      else
        var head := f.heads(recorded[t]).value;
        q.(requests := q.requests + [Request(t, RevisionKey(f, t, head), instruction, Some(head))])
    else Queue(q.requests + [Request(t, InitialKey(f, t), instruction, None)], q.initial + [t])
  }

  function TargetsOf(f: Finding, c: Command): seq<string>
    requires c.Fix?
  {
    if c.all then f.enabled else c.targets
  }

  function OnTargets(f: Finding, recorded: map<string, string>, instruction: Option<string>, q: Queue,
    ts: seq<string>): Queue
    decreases |ts|
  {
    if ts == [] then q
    else
      var n := |ts| - 1;
      OnTarget(f, recorded, instruction, OnTargets(f, recorded, instruction, q, ts[..n]), ts[n])
  }

  function OnCommands(f: Finding, recorded: map<string, string>, cs: seq<Command>): Queue
    decreases |cs|
  {
    if cs == [] then Queue([], [])
    else
      var n := |cs| - 1;
      var q := OnCommands(f, recorded, cs[..n]);
      if cs[n].Fix? then OnTargets(f, recorded, cs[n].instruction, q, TargetsOf(f, cs[n])) else q
  }

  /** Only supported verbs, and only targets the finding affects. */
  predicate IsAllowed(f: Finding, c: Command) {
    !c.Other? && (c.Fix? && !c.all ==> forall i :: 0 <= i < |c.targets| ==> c.targets[i] in f.affected)
  }

  /** The commands against the issue body with its section rendered anew. */
  function Queued(f: Finding, issueBody: string, cs: seq<Command>): Result<Reply> {
    var q := OnCommands(f, Recorded(SplitLines(issueBody)), cs);
    match Replaced(issueBody, QueuedRows(q.initial))
    case Failure(e) => Failure(e)
    case Success(updated) => Success(Accepted(updated, q.requests))
  }

  /** `section`: the command section as it is rendered for this finding. */
  function Handled(f: Finding, body: string, section: string, cs: seq<Command>): Result<Reply> {
    if exists i :: 0 <= i < |cs| && !IsAllowed(f, cs[i]) then Success(Rejected)
    else
      match Ensured(body, section)
      case Failure(e) => Failure(e)
      case Success(issueBody) => Queued(f, issueBody, cs)
  }

  method QueueCommands(f: Finding, issueBody: string, cs: seq<Command>) returns (r: Result<Reply>)
    ensures r == Queued(f, issueBody, cs)
  {
    var recorded := RecordedPropagations(issueBody);
    var q := Queue([], []);
    for i := 0 to |cs|
      invariant q == OnCommands(f, recorded, cs[..i])
    {
      assert cs[..i + 1][..i] == cs[..i];
      if cs[i].Fix? {
        var targets := TargetsOf(f, cs[i]);
        ghost var start := q;
        for k := 0 to |targets|
          invariant q == OnTargets(f, recorded, cs[i].instruction, start, targets[..k])
        {
          assert targets[..k + 1][..k] == targets[..k];
          q := OnTarget(f, recorded, cs[i].instruction, q, targets[k]);
        }
        assert targets[..|targets|] == targets;
      }
    }
    assert cs[..|cs|] == cs;
    var updated := QueuedPropagations(issueBody, q.initial);
    if updated.Failure? {
      return Failure(updated.error);
    }
    return Success(Accepted(updated.value, q.requests));
  }

  method HandleAuditComment(f: Finding, body: string, section: string, cs: seq<Command>) returns (r: Result<Reply>)
    ensures r == Handled(f, body, section, cs)
  {
    for i := 0 to |cs|
      invariant forall k :: 0 <= k < i ==> IsAllowed(f, cs[k])
    {
      if !IsAllowed(f, cs[i]) {
        return Success(Rejected);
      }
    }
    var ensured := EnsureAuditRemediation(body, section);
    if ensured.Failure? {
      return Failure(ensured.error);
    }
    r := QueueCommands(f, ensured.value, cs);
  }

  // ---------------------------------------------------------------- what is queued

  /** Each target once; first attempts are those without a recorded pull request; revisions start from its head. */
  ghost predicate QueueOk(f: Finding, recorded: map<string, string>, q: Queue) {
    && (forall i, j :: 0 <= i < j < |q.requests| ==> q.requests[i].target != q.requests[j].target)
    && (forall i :: 0 <= i < |q.requests| ==> RequestOk(f, recorded, q.requests[i]))
    && (forall t :: t in q.initial <==>
      exists i :: 0 <= i < |q.requests| && q.requests[i] == q.requests[i].(target := t, revision := None))
    && (forall i :: 0 <= i < |q.initial| ==> IsTarget(q.initial[i]) && q.initial[i] !in recorded)
  }

  ghost predicate RequestOk(f: Finding, recorded: map<string, string>, r: Request) {
    && (r.target in f.affected || r.target in f.enabled)
    && if r.revision.None? then r.target !in recorded && r.key == InitialKey(f, r.target)
       else
         && r.target in recorded && r.instruction.Some? && f.heads(recorded[r.target]) == r.revision
         && r.key == RevisionKey(f, r.target, r.revision.value)
  }

  lemma OnTargetKeepsOk(f: Finding, recorded: map<string, string>, instruction: Option<string>, q: Queue, t: string)
    requires QueueOk(f, recorded, q) && IsTarget(t) && (t in f.affected || t in f.enabled)
    ensures QueueOk(f, recorded, OnTarget(f, recorded, instruction, q, t))
  {
    var q' := OnTarget(f, recorded, instruction, q, t);
    if q' != q {
      assert forall i :: 0 <= i < |q.requests| ==> q'.requests[i] == q.requests[i];
      var last := q'.requests[|q.requests|];
      assert RequestOk(f, recorded, last);
      if t !in recorded {
        assert last == last.(target := t, revision := None);
        forall u | u in q'.initial
          ensures exists i :: 0 <= i < |q'.requests| && q'.requests[i] == q'.requests[i].(target := u, revision := None)
        {
          if u in q.initial {
            var i :| 0 <= i < |q.requests| && q.requests[i] == q.requests[i].(target := u, revision := None);
            assert q'.requests[i] == q'.requests[i].(target := u, revision := None);
          } else {
            assert u == t;
          }
        }
      }
    }
  }

  ghost predicate AllTargets(f: Finding, ts: seq<string>) {
    forall i :: 0 <= i < |ts| ==> IsTarget(ts[i]) && (ts[i] in f.affected || ts[i] in f.enabled)
  }

  lemma {:induction false} OnTargetsKeepsOk(
      f: Finding, recorded: map<string, string>, instruction: Option<string>, q: Queue, ts: seq<string>)
    requires QueueOk(f, recorded, q) && AllTargets(f, ts)
    ensures QueueOk(f, recorded, OnTargets(f, recorded, instruction, q, ts))
    decreases |ts|
  {
    if ts != [] {
      var n := |ts| - 1;
      OnTargetsKeepsOk(f, recorded, instruction, q, ts[..n]);
      OnTargetKeepsOk(f, recorded, instruction, OnTargets(f, recorded, instruction, q, ts[..n]), ts[n]);
    }
  }

  /** Target names are validated where findings and commands come from. */
  ghost predicate NamesOk(f: Finding) {
    && (forall i :: 0 <= i < |f.affected| ==> IsTarget(f.affected[i]))
    && (forall i :: 0 <= i < |f.enabled| ==> IsTarget(f.enabled[i]) && f.enabled[i] in f.affected)
  }

  lemma {:induction false} CommandsKeepOk(f: Finding, recorded: map<string, string>, cs: seq<Command>)
    requires NamesOk(f) && forall i :: 0 <= i < |cs| ==> IsAllowed(f, cs[i])
    ensures QueueOk(f, recorded, OnCommands(f, recorded, cs))
    decreases |cs|
  {
    if cs != [] {
      var n := |cs| - 1;
      CommandsKeepOk(f, recorded, cs[..n]);
      if cs[n].Fix? {
        var ts := TargetsOf(f, cs[n]);
        forall i | 0 <= i < |ts| ensures IsTarget(ts[i]) && (ts[i] in f.affected || ts[i] in f.enabled) {
          if !cs[n].all {
            var k :| 0 <= k < |f.affected| && f.affected[k] == ts[i];
          }
        }
        OnTargetsKeepsOk(f, recorded, cs[n].instruction, OnCommands(f, recorded, cs[..n]), ts);
      }
    }
  }

  // ---------------------------------------------------------------- the body

  lemma QueueKeepsReferences(view: map<string, string>, targets: seq<string>)
    requires forall i :: 0 <= i < |targets| ==> IsTarget(targets[i]) && targets[i] !in References(view)
    ensures References(PropagationEdits.Queue(view, targets)) == References(view)
  {
    forall t | t in view && t in targets ensures ReadRow(QueuedRow(t)).None? && ReadRow(view[t]).None? {
      var i :| 0 <= i < |targets| && targets[i] == t;
      ReadsBack(Skipped(t, ""), t);
    }
  }

  /** Queueing first attempts never loses a recorded pull request from the body. */
  lemma QueueKeepsRecorded(body: string, targets: seq<string>, start: nat, end: nat)
    requires IssueBody(SplitLines(body), start, end)
    requires forall i :: 0 <= i < |targets| ==> IsTarget(targets[i]) && targets[i] !in Recorded(SplitLines(body))
    ensures Replaced(body, QueuedRows(targets)).Success?
    ensures var r := SplitLines(Replaced(body, QueuedRows(targets)).value);
      IssueBody(r, start, end) && Recorded(r) == Recorded(SplitLines(body))
  {
    var d := QueuedRows(targets);
    QueuedRowsAre(targets, "");
    ReplaceIsMapUpdate(body, d, start, end);
    QueueIsMapUpdate(body, targets, start, end);
    var lines, r := SplitLines(body), SplitLines(Replaced(body, d).value);
    EditKeepsBody(lines, r, start, end, d);
    RecordedIsView(lines, start, end);
    RecordedIsView(r, start, end);
    QueueKeepsReferences(View(Rows(body, start, end)), targets);
  }

  /** An accepted comment, with what it queues. */
  ghost predicate Accepts(f: Finding, body: string, q: Queue, r: Reply, start: nat, end: nat)
    requires IssueBody(SplitLines(body), start, end)
  {
    && r.Accepted? && r.requests == q.requests && QueueOk(f, Recorded(SplitLines(body)), q)
    && IssueBody(SplitLines(r.body), start, end) && Recorded(SplitLines(r.body)) == Recorded(SplitLines(body))
    && View(Rows(r.body, start, end)) == PropagationEdits.Queue(View(Rows(body, start, end)), q.initial)
  }

  lemma QueueIsAccepted(f: Finding, body: string, q: Queue, start: nat, end: nat)
    requires IssueBody(SplitLines(body), start, end) && QueueOk(f, Recorded(SplitLines(body)), q)
    ensures Replaced(body, QueuedRows(q.initial)).Success?
    ensures Accepts(f, body, q, Accepted(Replaced(body, QueuedRows(q.initial)).value, q.requests), start, end)
  {
    QueueKeepsRecorded(body, q.initial, start, end);
    QueueIsMapUpdate(body, q.initial, start, end);
  }

  lemma QueuedEffect(f: Finding, issueBody: string, cs: seq<Command>, start: nat, end: nat)
    requires NamesOk(f) && IssueBody(SplitLines(issueBody), start, end)
    requires forall i :: 0 <= i < |cs| ==> IsAllowed(f, cs[i])
    ensures Queued(f, issueBody, cs).Success?
    ensures var r := Queued(f, issueBody, cs).value;
      r.Accepted? && Accepts(f, issueBody, OnCommands(f, Recorded(SplitLines(issueBody)), cs), r, start, end)
  {
    CommandsKeepOk(f, Recorded(SplitLines(issueBody)), cs);
    QueueIsAccepted(f, issueBody, OnCommands(f, Recorded(SplitLines(issueBody)), cs), start, end);
  }

  lemma HandledIs(f: Finding, body: string, section: string, cs: seq<Command>, issueBody: string)
    requires Ensured(body, section) == Success(issueBody)
    ensures Handled(f, body, section, cs) ==
      if forall i :: 0 <= i < |cs| ==> IsAllowed(f, cs[i]) then Queued(f, issueBody, cs) else Success(Rejected)
  {
  }

  /**
   What a comment on a finding issue does: it is rejected exactly for an unsupported verb or a target
   the finding does not affect; otherwise every target is queued at most once, recorded pull requests
   are revised and not attempted again, and the new body shows the first attempts as queued and
   still shows everything recorded.
   */
  lemma CommentEffect(f: Finding, body: string, section: string, cs: seq<Command>,
    issueBody: string, start: nat, end: nat)
    requires NamesOk(f) && Ensured(body, section) == Success(issueBody) && IssueBody(SplitLines(issueBody), start, end)
    ensures var r := Handled(f, body, section, cs);
      r.Success? && (r.value == Rejected <==> exists i :: 0 <= i < |cs| && !IsAllowed(f, cs[i]))
    ensures var r := Handled(f, body, section, cs).value;
      r != Rejected ==> Accepts(f, issueBody, OnCommands(f, Recorded(SplitLines(issueBody)), cs), r, start, end)
  {
    HandledIs(f, body, section, cs, issueBody);
    if forall i :: 0 <= i < |cs| ==> IsAllowed(f, cs[i]) {
      QueuedEffect(f, issueBody, cs, start, end);
    }
  }

  /**
   So on an issue whose section is rendered anew for the finding's targets, handling a comment never
   fails and loses no recorded pull request of a target the section shows.
   */
  lemma CommentKeepsRecorded(
      f: Finding, body: string, start: nat, end: nat, r: Rendering, head: seq<string>, tail: seq<string>,
      cs: seq<Command>, t: string)
    requires NamesOk(f) && IsRemediated(body, start, end)
    requires ProseEach(head) && ProseEach(tail) && ValidRendering(r)
    ensures var h := Handled(f, body, Join(Section(r, head, tail)), cs);
      h.Success? && (h.value.Accepted? && t in View(Inside(r)) && t in Recorded(SplitLines(body)) ==>
        t in Recorded(SplitLines(h.value.body))
          && Recorded(SplitLines(h.value.body))[t] == Recorded(SplitLines(body))[t])
  {
    var section := Join(Section(r, head, tail));
    EnsuredKeepsState(body, start, end, r, head, tail);
    var issueBody := Ensured(body, section).value;
    CommentEffect(f, body, section, cs, issueBody, |Above(body, head)|, EndOf(r, Above(body, head)));
    if t in View(Inside(r)) && t in Recorded(SplitLines(body)) {
      EnsuredKeepsRecorded(body, start, end, r, head, tail, t);
    }
  }

  /** Two different targets never share a first-attempt key. */
  lemma InitialKeysDiffer(f: Finding, t: string, u: string)
    requires InitialKey(f, t) == InitialKey(f, u)
    ensures t == u
  {
    var p := "audit:" + f.id + ":";
    assert InitialKey(f, t)[|p|..] == t && InitialKey(f, u)[|p|..] == u;
  }
}
