/**
 The state branch protocol of `agricola/state_transaction.py`: any number of writers run
 `transact` against one remote branch, and their statements interleave freely. A run of the
 system is any sequence of actions; an action that is not enabled changes nothing.
 Commits are fresh identifiers: a `Sha` indexes `commits`, and `log` lists every commit the
 branch has ever pointed to, the present head last.
 */
module StateProtocol {
  import opened Wrappers
  import opened Text
  import opened Models

  type Sha = nat

  /** `lease` is the fetched SHA, `before` the ledger restored from it. */
  datatype Commit = Commit(
    writer: nat, attempt: nat, lease: Option<Sha>, before: LedgerState, ledger: LedgerState)

  /** Exit status of `git push`: 0, 1, or a code that `git()` turns into an exception. */
  datatype Reply = Accepted | Refused | Broken

  datatype Pc =
    | Ready
    | Listed(present: bool)
    | Fetched(expected: Option<Sha>)
    | Opened(expected: Option<Sha>, base: LedgerState, before: LedgerState)
    | Ran(expected: Option<Sha>, base: LedgerState, before: LedgerState, after: LedgerState)
    | Saved(expected: Option<Sha>, base: LedgerState, mine: Sha)
    | Rejected(expected: Option<Sha>)
    | Returned(published: Option<Sha>, base: LedgerState, before: LedgerState, after: LedgerState)
    | Raised

  datatype Writer = Writer(attempt: nat, pc: Pc)

  datatype Sys = Sys(
    first: LedgerState, base: LedgerState, commits: seq<Commit>, log: seq<Sha>, writers: seq<Writer>)

  /**
   `may(w, x, y)`: the operation writer `w` replays can lead from ledger `x` to `y`; it may ask the
   host, so it need not do the same each time. `valid` is `validate_all`.
   */
  datatype Program = Program(may: (nat, LedgerState, LedgerState) -> bool, valid: LedgerState -> bool, attempts: nat)

  datatype Action =
    | List(w: nat)
    | Fetch(w: nat)
    | Open(w: nat)
    | Operate(w: nat, result: Option<LedgerState>)
    | Save(w: nat)
    | Push(w: nat, arrives: bool, reply: Reply)
    | Recheck(w: nat)
    | Abort(w: nat)          // any other command fails, or the process dies
    | MergeIntoBase(k: nat)  // the default branch takes over an earlier published ledger

  function Head(s: Sys): Option<Sha> {
    if s.log == [] then None else Some(s.log[|s.log| - 1])
  }

  function SetPc(s: Sys, w: nat, pc: Pc): Sys
    requires w < |s.writers|
  {
    s.(writers := s.writers[w := s.writers[w].(pc := pc)])
  }

  /** One statement of `transact`, `snapshot`, `commit` or `publish`. */
  function Apply(p: Program, s: Sys, a: Action): Sys {
    match a
    case MergeIntoBase(k) =>
      if k < |s.log| && s.log[k] < |s.commits| then s.(base := s.commits[s.log[k]].ledger) else s
    case List(w) =>
      if w < |s.writers| && s.writers[w].pc.Ready? then
        SetPc(s, w, Listed(s.log != []))
      else s
    case Fetch(w) =>
      if w < |s.writers| && s.writers[w].pc.Listed? then
        SetPc(s, w, Fetched(if s.writers[w].pc.present then Head(s) else None))
      else s
    case Open(w) =>
      if w < |s.writers| && s.writers[w].pc.Fetched? then
        var expected := s.writers[w].pc.expected;
        match expected
        case None => SetPc(s, w, Opened(None, s.base, s.base))
        case Some(e) =>
          if e < |s.commits| then SetPc(s, w, Opened(expected, s.base, s.commits[e].ledger)) else s
      else s
    case Operate(w, result) =>
      if w < |s.writers| && s.writers[w].pc.Opened? then
        var pc := s.writers[w].pc;
        if !p.valid(pc.before) || result.None? then SetPc(s, w, Raised)
        else if !p.may(w, pc.before, result.value) then s
        else if !p.valid(result.value) then SetPc(s, w, Raised)
        else SetPc(s, w, Ran(pc.expected, pc.base, pc.before, result.value))
      else s
    case Save(w) =>
      if w < |s.writers| && s.writers[w].pc.Ran? then
        var pc := s.writers[w].pc;
        if pc.after == pc.base then  // the index is compared with the base checkout
          SetPc(s, w, Returned(None, pc.base, pc.before, pc.after))
        else
          SetPc(s.(commits := s.commits + [Commit(w, s.writers[w].attempt, pc.expected, pc.before, pc.after)]), w,
                Saved(pc.expected, pc.base, |s.commits|))
      else s
    case Push(w, arrives, reply) =>
      if w < |s.writers| && s.writers[w].pc.Saved? && s.writers[w].pc.mine < |s.commits| then
        var pc := s.writers[w].pc;
        var lands := arrives && Head(s) == pc.expected;  // --force-with-lease
        var s' := if lands then s.(log := s.log + [pc.mine]) else s;
        var c := s.commits[pc.mine];
        match reply
        case Accepted =>
          if lands then SetPc(s', w, Returned(Some(pc.mine), pc.base, c.before, c.ledger)) else s
        case Refused => SetPc(s', w, Rejected(pc.expected))
        case Broken => SetPc(s', w, Raised)
      else s
    case Recheck(w) =>
      if w < |s.writers| && s.writers[w].pc.Rejected? then
        var writer := s.writers[w];
        if Head(s) != writer.pc.expected && writer.attempt + 1 < p.attempts then
          s.(writers := s.writers[w := Writer(writer.attempt + 1, Ready)])
        else SetPc(s, w, Raised)
      else s
    case Abort(w) =>
      if w < |s.writers| && !s.writers[w].pc.Returned? then SetPc(s, w, Raised) else s
  }

  function Exec(p: Program, s: Sys, actions: seq<Action>): Sys
    decreases |actions|
  {
    if actions == [] then s else Exec(p, Apply(p, s, actions[0]), actions[1..])
  }

  lemma {:induction false} ExecAppend(p: Program, s: Sys, xs: seq<Action>, ys: seq<Action>)
    ensures Exec(p, s, xs + ys) == Exec(p, Exec(p, s, xs), ys)
    decreases |xs|
  {
    if xs == [] {
      assert xs + ys == ys;
    } else {
      assert (xs + ys)[1..] == xs[1..] + ys;
      ExecAppend(p, Apply(p, s, xs[0]), xs[1..], ys);
    }
  }

  /** Before the first publication: no branch, `n` writers about to start, any base ledger. */
  function Initial(first: LedgerState, n: nat): Sys {
    Sys(first, first, [], [], seq(n, i => Writer(0, Ready)))
  }

  // ---------------------------------------------------------------- invariant

  /** The ledger the branch carried just before its `k`th publication. */
  function LedgerBefore(s: Sys, k: nat): LedgerState {
    if 0 < k <= |s.log| && s.log[k - 1] < |s.commits| then s.commits[s.log[k - 1]].ledger else s.first
  }

  ghost predicate Published(s: Sys, x: LedgerState) {
    exists k: nat :: k <= |s.log| && LedgerBefore(s, k) == x
  }

  /** One completed operation: validated before and after. */
  ghost predicate Completed(p: Program, w: nat, before: LedgerState, after: LedgerState) {
    p.valid(before) && p.may(w, before, after) && p.valid(after)
  }

  ghost predicate CommitOk(p: Program, s: Sys, c: Commit) {
    && Completed(p, c.writer, c.before, c.ledger)
    && match c.lease
       case None => c.before == s.first || s.log != []
       case Some(e) => e < |s.commits| && c.before == s.commits[e].ledger
  }

  ghost predicate CommitsOk(p: Program, s: Sys) {
    forall c: Sha :: c < |s.commits| ==> CommitOk(p, s, s.commits[c])
  }

  ghost predicate RestoredFrom(s: Sys, expected: Option<Sha>, base: LedgerState, before: LedgerState) {
    && Published(s, base)
    && match expected
       case None => before == base && (before == s.first || s.log != [])
       case Some(e) => e in s.log && e < |s.commits| && before == s.commits[e].ledger
  }

  ghost predicate WriterOk(p: Program, s: Sys, w: nat, pc: Pc) {
    match pc
    case Listed(present) => present ==> s.log != []
    case Fetched(expected) => expected.Some? ==> expected.value in s.log
    case Opened(expected, base, before) => RestoredFrom(s, expected, base, before)
    case Ran(expected, base, before, after) =>
      RestoredFrom(s, expected, base, before) && Completed(p, w, before, after)
    case Saved(expected, base, mine) =>
      && mine < |s.commits| && mine !in s.log
      && s.commits[mine].writer == w && s.commits[mine].lease == expected && s.commits[mine].ledger != base
    case Returned(None, base, before, after) =>
      after == base && Completed(p, w, before, after) && Published(s, base)
    case Returned(Some(mine), base, before, after) =>
      && after != base && mine in s.log && mine < |s.commits| && s.commits[mine].writer == w
      && s.commits[mine].before == before && s.commits[mine].ledger == after
      && Completed(p, w, before, after)
    case _ => true
  }

  ghost predicate WritersOk(p: Program, s: Sys) {
    forall w: nat :: w < |s.writers| ==> WriterOk(p, s, w, s.writers[w].pc)
  }

  ghost predicate LogOk(s: Sys) {
    && (forall i :: 0 <= i < |s.log| ==> s.log[i] < |s.commits|)
    && Distinct(s.log)
    && (forall i :: 0 <= i < |s.log| ==> s.commits[s.log[i]].before == LedgerBefore(s, i))
  }

  ghost predicate Inv(p: Program, s: Sys) {
    LogOk(s) && Published(s, s.base) && CommitsOk(p, s) && WritersOk(p, s)
  }

  // ---------------------------------------------------------------- every step keeps it

  /** Commits and log only ever grow; the first ledger is fixed. */
  ghost predicate Grows(s: Sys, s': Sys) {
    s.commits <= s'.commits && s.log <= s'.log && s'.first == s.first
  }

  lemma PublishedGrows(s: Sys, s': Sys, x: LedgerState)
    requires LogOk(s) && Grows(s, s') && Published(s, x)
    ensures Published(s', x)
  {
    var k: nat :| k <= |s.log| && LedgerBefore(s, k) == x;
    assert LedgerBefore(s', k) == x;
  }

  lemma WriterOkGrows(p: Program, s: Sys, s': Sys, w: nat, pc: Pc)
    requires LogOk(s) && Grows(s, s') && WriterOk(p, s, w, pc)
    requires pc.Saved? ==> pc.mine !in s'.log
    ensures WriterOk(p, s', w, pc)
  {
    if (pc.Opened? || pc.Ran? || pc.Returned?) && Published(s, pc.base) {
      PublishedGrows(s, s', pc.base);
    }
  }

  lemma CommitsOkGrows(p: Program, s: Sys, s': Sys)
    requires CommitsOk(p, s) && Grows(s, s')
    requires forall c: Sha :: |s.commits| <= c < |s'.commits| ==> CommitOk(p, s', s'.commits[c])
    ensures CommitsOk(p, s')
  {
    forall c: Sha | c < |s'.commits| ensures CommitOk(p, s', s'.commits[c]) {
      if c < |s.commits| {
        assert CommitOk(p, s, s.commits[c]);
      }
    }
  }

  lemma LogOkSame(s: Sys, s': Sys)
    requires LogOk(s) && Grows(s, s') && s'.log == s.log
    ensures LogOk(s')
  {
    forall i | 0 <= i < |s'.log| ensures s'.commits[s'.log[i]].before == LedgerBefore(s', i) {
      assert LedgerBefore(s, i) == LedgerBefore(s', i);
    }
  }

  /** A step of writer `w` that does not publish. */
  lemma LocalStep(p: Program, s: Sys, s': Sys, w: nat)
    requires Inv(p, s) && w < |s.writers| == |s'.writers|
    requires Grows(s, s') && s'.log == s.log && s'.base == s.base
    requires forall c: Sha :: |s.commits| <= c < |s'.commits| ==> CommitOk(p, s', s'.commits[c])
    requires forall v: nat :: v < |s.writers| && v != w ==> s'.writers[v] == s.writers[v]
    requires WriterOk(p, s', w, s'.writers[w].pc)
    ensures Inv(p, s')
  {
    LogOkSame(s, s');
    PublishedGrows(s, s', s.base);
    CommitsOkGrows(p, s, s');
    forall v: nat | v < |s'.writers| ensures WriterOk(p, s', v, s'.writers[v].pc) {
      if v != w {
        WriterOkGrows(p, s, s', v, s.writers[v].pc);
      }
    }
  }

  /** The commit of a writer whose lease holds was made from the ledger now on the branch. */
  lemma LeaseHolds(p: Program, s: Sys, w: nat)
    requires Inv(p, s) && w < |s.writers| && s.writers[w].pc.Saved?
    requires Head(s) == s.writers[w].pc.expected
    ensures s.writers[w].pc.mine < |s.commits|
    ensures s.commits[s.writers[w].pc.mine].before == LedgerBefore(s, |s.log|)
  {
    assert WriterOk(p, s, w, s.writers[w].pc);
    assert CommitOk(p, s, s.commits[s.writers[w].pc.mine]);
  }

  lemma LandKeepsLog(s: Sys, s': Sys, mine: Sha)
    requires LogOk(s) && mine < |s.commits| && mine !in s.log
    requires s'.log == s.log + [mine] && s'.commits == s.commits && s'.first == s.first
    requires s.commits[mine].before == LedgerBefore(s, |s.log|)
    ensures LogOk(s')
  {
    forall i | 0 <= i < |s'.log| ensures s'.commits[s'.log[i]].before == LedgerBefore(s', i) {
      assert LedgerBefore(s, i) == LedgerBefore(s', i);
    }
  }

  lemma PushKeepsInv(p: Program, s: Sys, w: nat, arrives: bool, reply: Reply)
    requires Inv(p, s)
    ensures Inv(p, Apply(p, s, Push(w, arrives, reply)))
  {
    var s' := Apply(p, s, Push(w, arrives, reply));
    if s' != s {
      var pc := s.writers[w].pc;
      assert WriterOk(p, s, w, pc);
      if arrives && Head(s) == pc.expected {
        LeaseHolds(p, s, w);
        LandKeepsLog(s, s', pc.mine);
        PublishedGrows(s, s', s.base);
        CommitsOkGrows(p, s, s');
        forall v: nat | v < |s'.writers| ensures WriterOk(p, s', v, s'.writers[v].pc) {
          assert WriterOk(p, s, v, s.writers[v].pc);
          if v != w {
            WriterOkGrows(p, s, s', v, s.writers[v].pc);
          }
        }
      } else {
        LocalStep(p, s, s', w);
      }
    }
  }

  lemma MergeKeepsInv(p: Program, s: Sys, k: nat)
    requires Inv(p, s)
    ensures Inv(p, Apply(p, s, MergeIntoBase(k)))
  {
    var s' := Apply(p, s, MergeIntoBase(k));
    if s' != s {
      assert LedgerBefore(s', k + 1) == s'.base;
      LogOkSame(s, s');
      CommitsOkGrows(p, s, s');
      forall v: nat | v < |s'.writers| ensures WriterOk(p, s', v, s'.writers[v].pc) {
        WriterOkGrows(p, s, s', v, s.writers[v].pc);
      }
    }
  }

  lemma SnapshotKeepsInv(p: Program, s: Sys, a: Action)
    requires Inv(p, s) && (a.List? || a.Fetch? || a.Open?)
    ensures Inv(p, Apply(p, s, a))
  {
    var s' := Apply(p, s, a);
    if s' != s {
      assert WriterOk(p, s, a.w, s.writers[a.w].pc);
      if a.Open? {
        PublishedGrows(s, s', s.base);
        var k: nat :| k <= |s.log| && LedgerBefore(s, k) == s.base;
        assert s.base == s.first || s.log != [];
      }
      LocalStep(p, s, s', a.w);
    }
  }

  lemma OperateKeepsInv(p: Program, s: Sys, w: nat, result: Option<LedgerState>)
    requires Inv(p, s)
    ensures Inv(p, Apply(p, s, Operate(w, result)))
  {
    var s' := Apply(p, s, Operate(w, result));
    if s' != s {
      assert WriterOk(p, s, w, s.writers[w].pc);
      PublishedGrows(s, s', s.writers[w].pc.base);
      LocalStep(p, s, s', w);
    }
  }

  lemma MoveOnKeepsInv(p: Program, s: Sys, a: Action)
    requires Inv(p, s) && (a.Recheck? || a.Abort?)
    ensures Inv(p, Apply(p, s, a))
  {
    var s' := Apply(p, s, a);
    if s' != s {
      LocalStep(p, s, s', a.w);
    }
  }

  lemma SaveKeepsInv(p: Program, s: Sys, w: nat)
    requires Inv(p, s)
    ensures Inv(p, Apply(p, s, Save(w)))
  {
    var s' := Apply(p, s, Save(w));
    if s' != s {
      assert WriterOk(p, s, w, s.writers[w].pc);
      PublishedGrows(s, s', s.writers[w].pc.base);
      LocalStep(p, s, s', w);
    }
  }

  lemma StepKeepsInv(p: Program, s: Sys, a: Action)
    requires Inv(p, s)
    ensures Inv(p, Apply(p, s, a))
  {
    match a
    case MergeIntoBase(k) => MergeKeepsInv(p, s, k);
    case Push(w, arrives, reply) => PushKeepsInv(p, s, w, arrives, reply);
    case Save(w) => SaveKeepsInv(p, s, w);
    case Operate(w, result) => OperateKeepsInv(p, s, w, result);
    case Abort(_) => MoveOnKeepsInv(p, s, a);
    case Recheck(_) => MoveOnKeepsInv(p, s, a);
    case _ => SnapshotKeepsInv(p, s, a);
  }

  lemma {:induction false} ExecKeepsInv(p: Program, s: Sys, actions: seq<Action>)
    requires Inv(p, s)
    ensures Inv(p, Exec(p, s, actions))
    decreases |actions|
  {
    if actions != [] {
      StepKeepsInv(p, s, actions[0]);
      ExecKeepsInv(p, Apply(p, s, actions[0]), actions[1..]);
    }
  }

  lemma RunKeepsInv(p: Program, first: LedgerState, n: nat, actions: seq<Action>)
    ensures Inv(p, Exec(p, Initial(first, n), actions))
  {
    assert LedgerBefore(Initial(first, n), 0) == first;
    ExecKeepsInv(p, Initial(first, n), actions);
  }

  // ---------------------------------------------------------------- attempts

  /** The commit an attempt has made and still pushes, or has pushed. */
  function Holds(pc: Pc): Option<Sha> {
    match pc
    case Saved(_, _, mine) => Some(mine)
    case Returned(published, _, _, _) => published
    case _ => None
  }

  /** No commit of writer `w` is from a later attempt, and the present attempt has made at most the one it holds. */
  ghost predicate AttemptOk(s: Sys, w: nat)
    requires w < |s.writers|
  {
    var writer := s.writers[w];
    && (match Holds(writer.pc)
        case None => true
        case Some(mine) => mine < |s.commits| && s.commits[mine].attempt == writer.attempt)
    && forall c: Sha :: c < |s.commits| && s.commits[c].writer == w ==>
         && s.commits[c].attempt <= writer.attempt
         && (s.commits[c].attempt == writer.attempt ==>
               Holds(writer.pc) == Some(c) || writer.pc.Rejected? || writer.pc.Raised?)
  }

  ghost predicate AttemptsOk(s: Sys) {
    forall w: nat :: w < |s.writers| ==> AttemptOk(s, w)
  }

  lemma PushKeepsAttempt(p: Program, s: Sys, a: Action, w: nat)
    requires a.Push? && w < |s.writers| && AttemptOk(s, w)
    ensures |Apply(p, s, a).writers| == |s.writers| && AttemptOk(Apply(p, s, a), w)
  {
    assert Apply(p, s, a).commits == s.commits;
  }

  lemma SaveKeepsAttempt(p: Program, s: Sys, a: Action, w: nat)
    requires a.Save? && w < |s.writers| && AttemptOk(s, w)
    ensures |Apply(p, s, a).writers| == |s.writers| && AttemptOk(Apply(p, s, a), w)
  {
  }

  lemma OtherKeepsAttempt(p: Program, s: Sys, a: Action, w: nat)
    requires !a.Push? && !a.Save? && w < |s.writers| && AttemptOk(s, w)
    ensures |Apply(p, s, a).writers| == |s.writers| && AttemptOk(Apply(p, s, a), w)
  {
    assert Apply(p, s, a).commits == s.commits;
  }

  lemma StepKeepsAttempts(p: Program, s: Sys, a: Action)
    requires AttemptsOk(s)
    ensures AttemptsOk(Apply(p, s, a))
  {
    forall w: nat | w < |s.writers| ensures |Apply(p, s, a).writers| == |s.writers| && AttemptOk(Apply(p, s, a), w) {
      if a.Push? {
        PushKeepsAttempt(p, s, a, w);
      } else if a.Save? {
        SaveKeepsAttempt(p, s, a, w);
      } else {
        OtherKeepsAttempt(p, s, a, w);
      }
    }
    assert |Apply(p, s, a).writers| == |s.writers|;
  }

  lemma {:induction false} RunKeepsAttempts(p: Program, s: Sys, actions: seq<Action>)
    requires AttemptsOk(s)
    ensures AttemptsOk(Exec(p, s, actions))
    decreases |actions|
  {
    if actions != [] {
      StepKeepsAttempts(p, s, actions[0]);
      RunKeepsAttempts(p, Apply(p, s, actions[0]), actions[1..]);
    }
  }
}
