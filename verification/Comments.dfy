/**
 `handle_comment` and `record_propagations` of `agricola/service.py`: what one comment queues, the
 keys it queues it under, and the recording of the outcomes.
 */
module Comments {
  import opened Wrappers
  import opened Text
  import opened Models
  import opened Ledger
  import opened StateTheorems

  datatype Command =
    | Plan
    | Status
    | Fix(targets: seq<string>, all: bool, instruction: Option<string>, line: nat)
    | SkipTarget(target: string, reason: string, line: nat)

  /** `revision` is the pull request head a revision starts from. */
  datatype Request = Request(
    source: Source, target: string, actor: string, key: string,
    instruction: Option<string>, revision: Option<string>)

  /**
   The comment and what the host answers: merge-time labels, and the head of a recorded pull request
   if it is open.
   */
  datatype Env = Env(
    change: Change, manifest: Manifest, author: string, comment: string, at: int,
    labels: seq<string>, revisions: string -> Option<string>)

  datatype Handling = Handling(ledger: LedgerState, requests: seq<Request>, scheduled: set<string>)

  function ChangeId(env: Env): string {
    SourceId(env.change.repo, env.change.number)
  }

  function DefaultKey(env: Env, t: string): string {
    PropagateKey(env.change, t)
  }

  function FixKey(env: Env, t: string, line: nat): string {
    "fix:" + ChangeId(env) + ":" + (t + ":" + (env.comment + ":" + Decimal(line)))
  }

  function ReviseKey(env: Env, t: string, line: nat): string {
    "revise:" + ChangeId(env) + ":" + (t + ":" + (env.comment + ":" + Decimal(line)))
  }

  function SkipKey(env: Env, line: nat): string {
    "issue-comment:" + env.comment + ":line:" + Decimal(line)
  }

  predicate Skipped(decisions: seq<Decision>, t: string) {
    exists i :: 0 <= i < |decisions| && decisions[i].Skip? && decisions[i].target == t
  }

  /** `recorded_prs.get(target)`: the pull request of the last propagation recorded for `t`. */
  function RecordedPr(decisions: seq<Decision>, t: string): Option<string> {
    if decisions == [] then None
    else
      var last := decisions[|decisions| - 1];
      if last.Propagate? && last.target == t then Some(last.pr) else RecordedPr(decisions[..|decisions| - 1], t)
  }

  /** One target of one `fix` command, against the decisions recorded when the command started. */
  function OnTarget(env: Env, cmd: Command, decisions: seq<Decision>, h: Handling, t: string): Handling
    requires cmd.Fix?
  {
    var recorded := RecordedPr(decisions, t);
    if t in h.scheduled then h
    else if recorded.Some? then
      if cmd.instruction.None? then h
      else
        match env.revisions(recorded.value)
        case None => h
        case Some(head) =>
          var q := Request(ChangeSource(env.change), t, env.author, ReviseKey(env, t, cmd.line), cmd.instruction,
            Some(head));
          h.(requests := h.requests + [q], scheduled := h.scheduled + {t})
    else if cmd.all && Skipped(decisions, t) then h
    else if FixKey(env, t, cmd.line) in Keys(decisions) then h
    else
      var key := if DefaultKey(env, t) in Keys(decisions) then FixKey(env, t, cmd.line) else DefaultKey(env, t);
      var q := Request(ChangeSource(env.change), t, env.author, key, cmd.instruction, None);
      h.(requests := h.requests + [q], scheduled := h.scheduled + {t})
  }

  function OnTargets(env: Env, cmd: Command, decisions: seq<Decision>, h: Handling, targets: seq<string>): Handling
    requires cmd.Fix?
  {
    if targets == [] then h
    else
      var n := |targets| - 1;
      OnTarget(env, cmd, decisions, OnTargets(env, cmd, decisions, h, targets[..n]), targets[n])
  }

  function Decisions(st: LedgerState, c: Change): seq<Decision> {
    var e := Read(st, c.repo, c.number);
    if e.Some? then e.value.decisions else []
  }

  function TargetsOf(env: Env, cmd: Command): seq<string>
    requires cmd.Fix?
  {
    if cmd.all then PrTargets(env.manifest.sdks) else cmd.targets
  }

  function OnFix(env: Env, h: Handling, cmd: Command): Result<Handling>
    requires cmd.Fix?
  {
    var ensured := Ensure(h.ledger, env.change, None);
    if ensured.Failure? then Failure(ensured.error)
    else
      var h' := h.(ledger := ensured.value.0);
      Success(OnTargets(env, cmd, Decisions(h'.ledger, env.change), h', TargetsOf(env, cmd)))
  }

  function OnSkip(env: Env, h: Handling, cmd: Command): Result<Handling>
    requires cmd.SkipTarget?
  {
    var ensured := if Read(h.ledger, env.change.repo, env.change.number).None?
                   then Ensure(h.ledger, env.change, Some(env.labels)) else Success((h.ledger, false));
    if ensured.Failure? then Failure(ensured.error)
    else
      var d := Skip(cmd.target, env.author, SkipKey(env, cmd.line), env.at, cmd.reason);
      var appended := Append(ensured.value.0, env.change, d);
      if appended.Failure? then Failure(appended.error) else Success(h.(ledger := appended.value.0))
  }

  function OnCommand(env: Env, h: Handling, cmd: Command): Result<Handling> {
    match cmd
    case Plan => Success(h)
    case Status => Success(h)
    case Fix(_, _, _, _) => OnFix(env, h, cmd)
    case SkipTarget(_, _, _) => OnSkip(env, h, cmd)
  }

  function OnCommands(env: Env, h: Handling, cmds: seq<Command>): Result<Handling> {
    if cmds == [] then Success(h)
    else
      var before := OnCommands(env, h, cmds[..|cmds| - 1]);
      if before.Failure? then before else OnCommand(env, before.value, cmds[|cmds| - 1])
  }

  // ---------------------------------------------------------------- keys

  /** `TargetName` of the manifest, as far as keys depend on it. */
  ghost predicate NoColon(t: string) {
    ':' !in t
  }

  ghost predicate ValidCommands(env: Env, cmds: seq<Command>) {
    && (forall i :: 0 <= i < |env.manifest.sdks| ==> NoColon(env.manifest.sdks[i].name))
    && (forall i, j :: 0 <= i < |cmds| && cmds[i].Fix? && 0 <= j < |cmds[i].targets| ==> NoColon(cmds[i].targets[j]))
  }

  lemma {:induction false} ColonSplits(a: string, b: string, x: string, y: string)
    requires NoColon(a) && NoColon(b) && a + ":" + x == b + ":" + y
    ensures a == b
  {
    var first := if a == "" then ':' else a[0];
    var first' := if b == "" then ':' else b[0];
    assert (a + ":" + x)[0] == first && (b + ":" + y)[0] == first';
    if a != "" && b != "" {
      assert (a + ":" + x)[1..] == a[1..] + ":" + x && (b + ":" + y)[1..] == b[1..] + ":" + y;
      ColonSplits(a[1..], b[1..], x, y);
      assert a == [a[0]] + a[1..] && b == [b[0]] + b[1..];
    }
  }

  /** A key under which a first propagation of `t` may be queued by this comment. */
  ghost predicate IsKeyOf(env: Env, t: string, key: string) {
    key == DefaultKey(env, t) || exists line: nat :: key == FixKey(env, t, line)
  }

  /** Such keys are never skip keys, and different targets have different keys. */
  lemma KeysAreSeparate(env: Env, t: string, u: string, key: string, line: nat)
    requires IsKeyOf(env, t, key)
    ensures key != SkipKey(env, line)
    ensures IsKeyOf(env, u, key) && NoColon(t) && NoColon(u) ==> t == u
  {
    assert key[0] == 'p' || key[0] == 'f';
    if IsKeyOf(env, u, key) && NoColon(t) && NoColon(u) {
      if key[0] == 'p' {
        var p := "propagate:" + ChangeId(env) + ":";
        assert DefaultKey(env, t) == p + t && DefaultKey(env, u) == p + u;
        assert t == (p + t)[|p|..] && u == (p + u)[|p|..];
      } else {
        var i: nat :| key == FixKey(env, t, i);
        var j: nat :| key == FixKey(env, u, j);
        var p := "fix:" + ChangeId(env) + ":";
        var x, y := env.comment + ":" + Decimal(i), env.comment + ":" + Decimal(j);
        assert key == p + (t + ":" + x) == p + (u + ":" + y);
        assert t + ":" + x == key[|p|..] == u + ":" + y;
        ColonSplits(t, u, x, y);
      }
    }
  }

  // ---------------------------------------------------------------- freshness

  /** Every queued first propagation has an unused key of its own target; no target is queued twice. */
  ghost predicate Fresh(env: Env, h: Handling, keys: seq<string>) {
    && (forall i :: 0 <= i < |h.requests| ==>
          && h.requests[i].target in h.scheduled && NoColon(h.requests[i].target)
          && h.requests[i].source == ChangeSource(env.change)
          && (h.requests[i].revision.None? ==>
                IsKeyOf(env, h.requests[i].target, h.requests[i].key) && h.requests[i].key !in keys))
    && (forall i, j :: 0 <= i < j < |h.requests| ==> h.requests[i].target != h.requests[j].target)
  }

  lemma OnTargetKeepsFresh(env: Env, cmd: Command, decisions: seq<Decision>, h: Handling, t: string)
    requires cmd.Fix? && NoColon(t) && Fresh(env, h, Keys(decisions))
    ensures var h' := OnTarget(env, cmd, decisions, h, t);
      Fresh(env, h', Keys(decisions)) && h'.ledger == h.ledger && h.requests <= h'.requests
  {
    var h' := OnTarget(env, cmd, decisions, h, t);
    if h' != h {
      assert h'.requests[|h.requests|].target == t;
    }
  }

  lemma {:induction false} OnTargetsKeepsFresh(
      env: Env, cmd: Command, decisions: seq<Decision>, h: Handling, targets: seq<string>)
    requires cmd.Fix? && Fresh(env, h, Keys(decisions))
    requires forall i :: 0 <= i < |targets| ==> NoColon(targets[i])
    ensures var h' := OnTargets(env, cmd, decisions, h, targets);
      Fresh(env, h', Keys(decisions)) && h'.ledger == h.ledger && h.requests <= h'.requests
  {
    if targets != [] {
      var n := |targets| - 1;
      OnTargetsKeepsFresh(env, cmd, decisions, h, targets[..n]);
      OnTargetKeepsFresh(env, cmd, decisions, OnTargets(env, cmd, decisions, h, targets[..n]), targets[n]);
    }
  }

  /** The ledger has this change's entry whenever something is queued, and the queued keys are free in it. */
  ghost predicate HandlingOk(env: Env, h: Handling) {
    && ValidEntries(h.ledger)
    && (h.requests != [] ==>
          var e := Read(h.ledger, env.change.repo, env.change.number); e.Some? && SameSource(e.value, env.change))
    && Fresh(env, h, Keys(Decisions(h.ledger, env.change)))
  }

  lemma EnsureKeepsDecisions(st: LedgerState, c: Change, labels: Option<seq<string>>)
    requires Ensure(st, c, labels).Success?
    ensures Decisions(Ensure(st, c, labels).value.0, c) == Decisions(st, c)
  {
  }

  lemma FixKeepsOrder(env: Env, h: Handling, cmd: Command)
    requires cmd.Fix? && HandlingOk(env, h) && OnFix(env, h, cmd).Success?
    requires forall i :: 0 <= i < |TargetsOf(env, cmd)| ==> NoColon(TargetsOf(env, cmd)[i])
    ensures HandlingOk(env, OnFix(env, h, cmd).value)
  {
    EnsureKeepsHistory(h.ledger, env.change, None);
    EnsureOnce(h.ledger, env.change, None);
    EnsureKeepsDecisions(h.ledger, env.change, None);
    var h' := h.(ledger := Ensure(h.ledger, env.change, None).value.0);
    OnTargetsKeepsFresh(env, cmd, Decisions(h'.ledger, env.change), h', TargetsOf(env, cmd));
  }

  lemma SkipKeepsOrder(env: Env, h: Handling, cmd: Command)
    requires cmd.SkipTarget? && HandlingOk(env, h) && OnSkip(env, h, cmd).Success?
    ensures HandlingOk(env, OnSkip(env, h, cmd).value)
  {
    var c := env.change;
    var st :=
      if Read(h.ledger, c.repo, c.number).None? then Ensure(h.ledger, c, Some(env.labels)).value.0 else h.ledger;
    if Read(h.ledger, c.repo, c.number).None? {
      EnsureKeepsHistory(h.ledger, c, Some(env.labels));
      EnsureOnce(h.ledger, c, Some(env.labels));
      EnsureKeepsDecisions(h.ledger, c, Some(env.labels));
    }
    var d := Skip(cmd.target, env.author, SkipKey(env, cmd.line), env.at, cmd.reason);
    var h' := OnSkip(env, h, cmd).value;
    AppendCorrect(st, c, d);
    AppendAddsKey(st, c, d);
    forall i | 0 <= i < |h'.requests| && h'.requests[i].revision.None?
      ensures h'.requests[i].key !in Keys(Decisions(h'.ledger, c))
    {
      KeysAreSeparate(env, h'.requests[i].target, h'.requests[i].target, h'.requests[i].key, cmd.line);
    }
  }

  lemma AppendAddsKey(st: LedgerState, c: Change, d: Decision)
    requires ValidEntries(st) && Append(st, c, d).Success?
    ensures var st' := Append(st, c, d).value.0;
      && (forall key :: key in Keys(Decisions(st', c)) ==> key in Keys(Decisions(st, c)) || key == d.key)
      && (var e := Read(st', c.repo, c.number); e.Some? && SameSource(e.value, c))
  {
    var found := Read(st, c.repo, c.number);
    var e := if found.Some? then found.value else NewEntry(c, None);
    AppendAtCorrect(st, PathFor(c.repo, c.number), e, d);
    KeysAppend(e.decisions, d);
  }

  lemma {:induction false} CommandsKeepOrder(env: Env, h: Handling, cmds: seq<Command>)
    requires HandlingOk(env, h) && ValidCommands(env, cmds) && OnCommands(env, h, cmds).Success?
    ensures HandlingOk(env, OnCommands(env, h, cmds).value)
  {
    if cmds != [] {
      var n := |cmds| - 1;
      var before := OnCommands(env, h, cmds[..n]);
      CommandsKeepOrder(env, h, cmds[..n]);
      if cmds[n].Fix? {
        PrTargetsNoColon(env, env.manifest.sdks);
        FixKeepsOrder(env, before.value, cmds[n]);
      } else if cmds[n].SkipTarget? {
        SkipKeepsOrder(env, before.value, cmds[n]);
      }
    }
  }

  lemma PrTargetsNoColon(env: Env, sdks: seq<Sdk>)
    requires forall i :: 0 <= i < |sdks| ==> NoColon(sdks[i].name)
    ensures forall i :: 0 <= i < |PrTargets(sdks)| ==> NoColon(PrTargets(sdks)[i])
  {
    forall i | 0 <= i < |PrTargets(sdks)| ensures NoColon(PrTargets(sdks)[i]) {
      assert PrTargets(sdks)[i] in PrTargets(sdks);
    }
  }

  // ---------------------------------------------------------------- conflicting commands

  /** The last check of `parse_commands`: targets that one comment both propagates and skips. */
  function Conflicts(env: Env, cmds: seq<Command>): set<string> {
    set i, j | 0 <= i < |cmds| && 0 <= j < |cmds| && cmds[j].SkipTarget? && cmds[i].Fix?
      && cmds[j].target in TargetsOf(env, cmds[i]) :: cmds[j].target
  }

  ghost predicate IsFixed(env: Env, cmds: seq<Command>, t: string) {
    exists i :: 0 <= i < |cmds| && cmds[i].Fix? && t in TargetsOf(env, cmds[i])
  }

  lemma OnTargetQueues(env: Env, cmd: Command, decisions: seq<Decision>, h: Handling, t: string, q: Request)
    requires cmd.Fix? && q in OnTarget(env, cmd, decisions, h, t).requests
    ensures q in h.requests || q.target == t
  {
  }

  lemma {:induction false} OnTargetsQueue(
      env: Env, cmd: Command, decisions: seq<Decision>, h: Handling, targets: seq<string>, q: Request)
    requires cmd.Fix? && q in OnTargets(env, cmd, decisions, h, targets).requests
    ensures q in h.requests || q.target in targets
  {
    if targets != [] {
      var n := |targets| - 1;
      OnTargetQueues(env, cmd, decisions, OnTargets(env, cmd, decisions, h, targets[..n]), targets[n], q);
      if q in OnTargets(env, cmd, decisions, h, targets[..n]).requests {
        OnTargetsQueue(env, cmd, decisions, h, targets[..n], q);
      }
    }
  }

  lemma {:induction false} OnlyFixedAreQueued(env: Env, st: LedgerState, cmds: seq<Command>, q: Request)
    requires OnCommands(env, Handling(st, [], {}), cmds).Success?
    requires q in OnCommands(env, Handling(st, [], {}), cmds).value.requests
    ensures IsFixed(env, cmds, q.target)
  {
    var n := |cmds| - 1;
    var h0 := Handling(st, [], {});
    var before := OnCommands(env, h0, cmds[..n]).value;
    if q in before.requests {
      OnlyFixedAreQueued(env, st, cmds[..n], q);
      var i :| 0 <= i < n && cmds[..n][i].Fix? && q.target in TargetsOf(env, cmds[..n][i]);
      assert cmds[i] == cmds[..n][i];
    } else {
      var h' := before.(ledger := Ensure(before.ledger, env.change, None).value.0);
      OnTargetsQueue(env, cmds[n], Decisions(h'.ledger, env.change), h', TargetsOf(env, cmds[n]), q);
      assert q.target in TargetsOf(env, cmds[n]);
    }
  }

  /** A comment that passes the check never queues a target it also skips. */
  lemma AcceptedNeverBoth(env: Env, st: LedgerState, cmds: seq<Command>, q: Request, j: nat)
    requires Conflicts(env, cmds) == {} && OnCommands(env, Handling(st, [], {}), cmds).Success?
    requires q in OnCommands(env, Handling(st, [], {}), cmds).value.requests
    requires j < |cmds| && cmds[j].SkipTarget?
    ensures q.target != cmds[j].target
  {
    OnlyFixedAreQueued(env, st, cmds, q);
    var i :| 0 <= i < |cmds| && cmds[i].Fix? && q.target in TargetsOf(env, cmds[i]);
    var t := cmds[j].target;
    assert t in TargetsOf(env, cmds[i]) ==> t in Conflicts(env, cmds);
  }

  // ---------------------------------------------------------------- recording

  /** The appended decisions, in order. */
  function Appended(jobs: seq<(Source, Decision)>): (ds: seq<Decision>)
    ensures |ds| == |jobs| && forall i :: 0 <= i < |ds| ==> ds[i] == jobs[i].1
  {
    if jobs == [] then [] else [jobs[0].1] + Appended(jobs[1..])
  }

  /** Decisions for one source under distinct, unused keys. */
  ghost predicate FreshJobs(st: LedgerState, source: Source, jobs: seq<(Source, Decision)>) {
    && (var e := Read(st, source.repo, source.pr);
        && e.Some? && e.value.source == source
        && forall i :: 0 <= i < |jobs| ==> jobs[i].1.key !in Keys(e.value.decisions))
    && (forall i :: 0 <= i < |jobs| ==> jobs[i].0 == source)
    && (forall i, j :: 0 <= i < j < |jobs| ==> jobs[i].1.key != jobs[j].1.key)
  }

  /** The ledger after `more` was appended to the entry at `path`. */
  function Amended(st: LedgerState, path: string, more: seq<Decision>): LedgerState
    requires path in st.entries
  {
    var e := st.entries[path];
    Write(st, path, e.(decisions := e.decisions + more))
  }

  lemma AmendedTwice(st: LedgerState, path: string, d: Decision, more: seq<Decision>)
    requires path in st.entries
    ensures Amended(Amended(st, path, [d]), path, more) == Amended(st, path, [d] + more)
  {
    var e := st.entries[path];
    var e1 := e.(decisions := e.decisions + [d]);
    assert e1.decisions + more == e.decisions + ([d] + more);
    assert st.entries[path := e1][path := e1.(decisions := e1.decisions + more)]
        == st.entries[path := e1.(decisions := e1.decisions + more)];
  }

  lemma AmendedByNothing(st: LedgerState, path: string)
    requires path in st.entries
    ensures Amended(st, path, []) == st
  {
    var e := st.entries[path];
    assert e.decisions + [] == e.decisions;
    assert st.entries[path := e] == st.entries;
  }

  /** The first fresh decision is appended, and the others stay fresh. */
  lemma FirstIsAppended(st: LedgerState, source: Source, jobs: seq<(Source, Decision)>)
    requires FreshJobs(st, source, jobs) && jobs != []
    ensures var st1 := Amended(st, PathFor(source.repo, source.pr), [jobs[0].1]);
      AppendSource(st, source, jobs[0].1) == Success((st1, true)) && FreshJobs(st1, source, jobs[1..])
  {
    var e := st.entries[PathFor(source.repo, source.pr)];
    assert FindKey(e.decisions, jobs[0].1.key).None?;
    KeysAppend(e.decisions, jobs[0].1);
  }

  lemma RecordAllStep(st: LedgerState, jobs: seq<(Source, Decision)>, st1: LedgerState)
    requires jobs != [] && AppendSource(st, jobs[0].0, jobs[0].1) == Success((st1, true))
    ensures RecordAll(st, jobs) == RecordAll(st1, jobs[1..])
  {
  }

  /** Fresh decisions are all recorded: no conflict, nothing else touched, each appended once. */
  lemma {:induction false} FreshJobsAreAppended(st: LedgerState, source: Source, jobs: seq<(Source, Decision)>)
    requires FreshJobs(st, source, jobs)
    ensures RecordAll(st, jobs) == Some(Amended(st, PathFor(source.repo, source.pr), Appended(jobs)))
    decreases |jobs|
  {
    var path := PathFor(source.repo, source.pr);
    if jobs == [] {
      AmendedByNothing(st, path);
    } else {
      var st1 := Amended(st, path, [jobs[0].1]);
      FirstIsAppended(st, source, jobs);
      RecordAllStep(st, jobs, st1);
      FreshJobsAreAppended(st1, source, jobs[1..]);
      AmendedTwice(st, path, jobs[0].1, Appended(jobs[1..]));
    }
  }

  /** The outcome of request `i` decides under that request's key. */
  ghost predicate Answers(requests: seq<Request>, which: seq<nat>, jobs: seq<(Source, Decision)>) {
    && |which| == |jobs| && Distinct(which)
    && forall i :: 0 <= i < |which| ==>
         && which[i] < |requests| && requests[which[i]].revision.None?
         && jobs[i].0 == requests[which[i]].source && jobs[i].1.key == requests[which[i]].key
  }

  /**
   Key freshness across functions: from any valid ledger, after one comment, recording outcomes of
   any of its non-revision requests, in any order, raises no key conflict and appends each once.
   */
  lemma QueuedOutcomesAreRecorded(
      env: Env, st: LedgerState, cmds: seq<Command>, which: seq<nat>, jobs: seq<(Source, Decision)>)
    requires ValidEntries(st) && ValidCommands(env, cmds)
    requires OnCommands(env, Handling(st, [], {}), cmds).Success?
    requires jobs != [] && Answers(OnCommands(env, Handling(st, [], {}), cmds).value.requests, which, jobs)
    ensures var after := OnCommands(env, Handling(st, [], {}), cmds).value.ledger;
            var path := PathFor(env.change.repo, env.change.number);
      && path in after.entries
      && RecordAll(after, jobs) == Some(Amended(after, path, Appended(jobs)))
  {
    var h0 := Handling(st, [], {});
    CommandsKeepOrder(env, h0, cmds);
    var h := OnCommands(env, h0, cmds).value;
    assert which[0] < |h.requests|;
    var source := ChangeSource(env.change);
    forall i, j | 0 <= i < j < |jobs| ensures jobs[i].1.key != jobs[j].1.key {
      var q, q' := h.requests[which[i]], h.requests[which[j]];
      assert which[i] != which[j];
      assert q.target != q'.target;
      KeysAreSeparate(env, q.target, q'.target, q.key, 0);
    }
    forall i | 0 <= i < |jobs| ensures jobs[i].0 == source && jobs[i].1.key !in Keys(Decisions(h.ledger, env.change)) {
      assert h.requests[which[i]].revision.None?;
    }
    FreshJobsAreAppended(h.ledger, source, jobs);
  }

  /**
   A poll and a comment may both queue the default key of one target. When the outcome of one is
   recorded, that of the other raises the key conflict exactly when it is another decision.
   */
  lemma SharedKeyConflictsExactlyWhen(st: LedgerState, c: Change, t: string, d: Decision, d': Decision)
    requires ValidEntries(st) && d.key == d'.key == PropagateKey(c, t)
    requires RecordAll(st, [(ChangeSource(c), d)]).Some?
    ensures RecordAll(st, [(ChangeSource(c), d), (ChangeSource(c), d')]).None? <==> d != d'
  {
    var source := ChangeSource(c);
    AppendSourceCorrect(st, source, d);
    var st1 := AppendSource(st, source, d).value.0;
    AppendSourceCorrect(st1, source, d');
    TwoJobs(st, (source, d), (source, d'));
    RecordedIsOnly(st1, source, d);
  }

  lemma TwoJobs(st: LedgerState, job: (Source, Decision), job': (Source, Decision))
    requires AppendSource(st, job.0, job.1).Success?
    ensures var st1 := AppendSource(st, job.0, job.1).value.0;
      RecordAll(st, [job, job']).None? <==> AppendSource(st1, job'.0, job'.1).Failure?
  {
    var st1 := AppendSource(st, job.0, job.1).value.0;
    assert [job, job'][1..] == [job'];
    assert RecordAll(st, [job, job']) == RecordAll(st1, [job']);
    assert [job'][1..] == [];
  }

  /** What is recorded is the only decision under its key. */
  lemma RecordedIsOnly(st: LedgerState, source: Source, d: Decision)
    requires ValidEntries(st) && Has(st, source, d)
    ensures Read(st, source.repo, source.pr).Some?
    ensures forall x :: x in Read(st, source.repo, source.pr).value.decisions && x.key == d.key ==> x == d
  {
    var e := st.entries[PathFor(source.repo, source.pr)];
    forall x | x in e.decisions && x.key == d.key ensures x == d {
      SameKeySame(e.decisions, x, d);
    }
  }

  /** Recording the same outcomes again changes nothing. */
  lemma {:induction false} RecordingAgainChangesNothing(st: LedgerState, jobs: seq<(Source, Decision)>)
    requires ValidEntries(st) && forall i :: 0 <= i < |jobs| ==> Has(st, jobs[i].0, jobs[i].1)
    ensures RecordAll(st, jobs) == Some(st)
    decreases |jobs|
  {
    if jobs != [] {
      var source, d := jobs[0].0, jobs[0].1;
      var e := st.entries[PathFor(source.repo, source.pr)];
      AppendAtCorrect(st, PathFor(source.repo, source.pr), e, d);
      forall x | x in e.decisions && x.key == d.key ensures x == d {
        SameKeySame(e.decisions, x, d);
      }
      RecordingAgainChangesNothing(st, jobs[1..]);
    }
  }

  // ---------------------------------------------------------------- in place

  /** An outcome of a run: a published pull request or a skip. `canonical` is false for audit findings. */
  datatype Outcome = Outcome(request: Request, canonical: bool, pr: Option<string>, reason: string, at: int)

  function DecisionOf(o: Outcome): Decision {
    if o.pr.Some? then Propagate(o.request.target, o.request.actor, o.request.key, o.at, o.pr.value)
    else Skip(o.request.target, o.request.actor, o.request.key, o.at, o.reason)
  }

  /** The outcomes `record_propagations` writes to the ledger. */
  function Jobs(outcomes: seq<Outcome>): seq<(Source, Decision)> {
    if outcomes == [] then []
    else
      var rest := Jobs(outcomes[1..]);
      if outcomes[0].canonical && outcomes[0].request.revision.None?
      then [(outcomes[0].request.source, DecisionOf(outcomes[0]))] + rest else rest
  }

  /** `record_propagations`, up to its replies. It changes the ledger exactly as `RecordAll` says. */
  method RecordPropagations(ledger: DecisionLedger, outcomes: seq<Outcome>) returns (r: Result<bool>)
    modifies ledger
    ensures r.Success? == RecordAll(old(ledger.state), Jobs(outcomes)).Some?
    ensures r.Success? ==> RecordAll(old(ledger.state), Jobs(outcomes)) == Some(ledger.state)
    ensures r.Success? && !r.value ==> ledger.state == old(ledger.state)
  {
    var changed := false;
    for i := 0 to |outcomes|
      invariant RecordAll(old(ledger.state), Jobs(outcomes)) == RecordAll(ledger.state, Jobs(outcomes[i..]))
      invariant !changed ==> ledger.state == old(ledger.state)
    {
      var o := outcomes[i];
      assert outcomes[i..][0] == o && outcomes[i..][1..] == outcomes[i + 1..];
      if o.canonical && o.request.revision.None? {
        var jobs := Jobs(outcomes[i..]);
        assert jobs[0] == (o.request.source, DecisionOf(o)) && jobs[1..] == Jobs(outcomes[i + 1..]);
        AppendFalseIsSame(ledger.state, o.request.source, DecisionOf(o));
        var appended := ledger.AppendForSource(o.request.source, DecisionOf(o));
        if appended.Failure? {
          return Failure(appended.error);
        }
        changed := changed || appended.value;
      }
    }
    assert outcomes[|outcomes|..] == [];
    return Success(changed);
  }

  lemma AppendFalseIsSame(st: LedgerState, source: Source, d: Decision)
    ensures AppendSource(st, source, d).Success? && !AppendSource(st, source, d).value.1 ==>
      AppendSource(st, source, d).value.0 == st
  {
  }

  /** The `propagate` branch of the command loop. */
  method QueueTargets(env: Env, cmd: Command, decisions: seq<Decision>, h: Handling) returns (r: Handling)
    requires cmd.Fix?
    ensures r == OnTargets(env, cmd, decisions, h, TargetsOf(env, cmd))
  {
    var targets := TargetsOf(env, cmd);
    r := h;
    for i := 0 to |targets|
      invariant r == OnTargets(env, cmd, decisions, h, targets[..i])
    {
      assert targets[..i + 1][..i] == targets[..i];
      r := OnTarget(env, cmd, decisions, r, targets[i]);
    }
    assert targets[..|targets|] == targets;
  }

  /** The command loop of `handle_comment`; an exception leaves through `Failure`. */
  method HandleComment(ledger: DecisionLedger, env: Env, cmds: seq<Command>) returns (r: Result<seq<Request>>)
    modifies ledger
    ensures var spec := OnCommands(env, Handling(old(ledger.state), [], {}), cmds);
      r.Success? ==> spec.Success? && ledger.state == spec.value.ledger && r.value == spec.value.requests
    ensures r.Failure? ==>
      exists k :: 0 < k <= |cmds| && OnCommands(env, Handling(old(ledger.state), [], {}), cmds[..k]).Failure?
  {
    var requests: seq<Request> := [];
    var scheduled: set<string> := {};
    ghost var h0 := Handling(ledger.state, [], {});
    for i := 0 to |cmds|
      invariant OnCommands(env, h0, cmds[..i]) == Success(Handling(ledger.state, requests, scheduled))
    {
      assert cmds[..i + 1][..i] == cmds[..i];
      match cmds[i] {
        case Plan =>
        case Status =>
        case Fix(_, _, _, _) =>
          var ensured := ledger.EnsureSnapshot(env.change, None);
          if ensured.Failure? {
            assert OnCommands(env, h0, cmds[..i + 1]).Failure?;
            return Failure(ensured.error);
          }
          var entry := Read(ledger.state, env.change.repo, env.change.number);
          var decisions := if entry.Some? then entry.value.decisions else [];
          var h := QueueTargets(env, cmds[i], decisions, Handling(ledger.state, requests, scheduled));
          TargetsKeepLedger(env, cmds[i], decisions, Handling(ledger.state, requests, scheduled),
            TargetsOf(env, cmds[i]));
          requests, scheduled := h.requests, h.scheduled;
        case SkipTarget(target, reason, line) =>
          var entry := Read(ledger.state, env.change.repo, env.change.number);
          if entry.None? {
            var _ := ledger.EnsureSnapshot(env.change, Some(env.labels));
          }
          var appended := ledger.AppendForChange(env.change,
            Skip(target, env.author, SkipKey(env, line), env.at, reason));
          if appended.Failure? {
            assert OnCommands(env, h0, cmds[..i + 1]).Failure?;
            return Failure(appended.error);
          }
      }
    }
    assert cmds[..|cmds|] == cmds;
    return Success(requests);
  }

  lemma {:induction false} TargetsKeepLedger(
      env: Env, cmd: Command, decisions: seq<Decision>, h: Handling, targets: seq<string>)
    requires cmd.Fix?
    ensures OnTargets(env, cmd, decisions, h, targets).ledger == h.ledger
  {
    if targets != [] {
      TargetsKeepLedger(env, cmd, decisions, h, targets[..|targets| - 1]);
    }
  }
}
