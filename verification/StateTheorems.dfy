/** What the state branch protocol guarantees in every reachable state. */
module StateTheorems {
  import opened Wrappers
  import opened Models
  import opened Ledger
  import opened StateProtocol

  ghost predicate Reachable(p: Program, s: Sys) {
    exists first: LedgerState, n: nat, actions: seq<Action> :: s == Exec(p, Initial(first, n), actions)
  }

  lemma ReachableInv(p: Program, s: Sys)
    requires Reachable(p, s)
    ensures Inv(p, s)
  {
    var first: LedgerState, n: nat, actions: seq<Action> :| s == Exec(p, Initial(first, n), actions);
    RunKeepsInv(p, first, n, actions);
  }

  /**
   No lost update: every ledger the branch ever carried is its writer's operation applied to
   the ledger the branch carried immediately before, whatever the interleaving and whatever
   the pushes report.
   */
  lemma NoLostUpdate(p: Program, s: Sys, k: nat)
    requires Reachable(p, s) && k < |s.log|
    ensures s.log[k] < |s.commits|
    ensures p.may(s.commits[s.log[k]].writer, LedgerBefore(s, k), LedgerBefore(s, k + 1))
    ensures p.valid(LedgerBefore(s, k + 1))
  {
    ReachableInv(p, s);
    assert CommitOk(p, s, s.commits[s.log[k]]);
  }

  ghost predicate Succeeded(s: Sys, w: nat) {
    w < |s.writers| && s.writers[w].pc.Returned?
  }

  /** A run that returns without publishing ended with exactly the base ledger. */
  lemma UnpublishedEqualsBase(p: Program, s: Sys, w: nat)
    requires Reachable(p, s) && Succeeded(s, w) && s.writers[w].pc.published.None?
    ensures s.writers[w].pc.after == s.writers[w].pc.base
    ensures Published(s, s.writers[w].pc.base)
  {
    ReachableInv(p, s);
    assert WriterOk(p, s, w, s.writers[w].pc);
  }

  /** Whoever returns, the operation's result is a ledger the branch (or the base before it) carried. */
  lemma SuccessIsPublished(p: Program, s: Sys, w: nat) returns (k: nat)
    requires Reachable(p, s) && Succeeded(s, w)
    ensures k <= |s.log| && LedgerBefore(s, k) == s.writers[w].pc.after
    ensures Completed(p, w, s.writers[w].pc.before, s.writers[w].pc.after)
  {
    ReachableInv(p, s);
    assert WriterOk(p, s, w, s.writers[w].pc);
    k := PublishedAt(p, s, w, s.writers[w].pc);
  }

  lemma PublishedAt(p: Program, s: Sys, w: nat, pc: Pc) returns (k: nat)
    requires WriterOk(p, s, w, pc) && pc.Returned?
    ensures k <= |s.log| && LedgerBefore(s, k) == pc.after
  {
    match pc.published
    case None => k :| k <= |s.log| && LedgerBefore(s, k) == pc.base;
    case Some(mine) =>
      var i :| 0 <= i < |s.log| && s.log[i] == mine;
      k := i + 1;
  }

  /** The last attempt of writer `w` has a commit on the branch. */
  ghost predicate Contributed(s: Sys, w: nat)
    requires w < |s.writers|
  {
    exists i :: 0 <= i < |s.log| && s.log[i] < |s.commits|
      && s.commits[s.log[i]].writer == w && s.commits[s.log[i]].attempt == s.writers[w].attempt
  }

  lemma ReachableAttempts(p: Program, s: Sys)
    requires Reachable(p, s)
    ensures AttemptsOk(s)
  {
    var first: LedgerState, n: nat, actions: seq<Action> :| s == Exec(p, Initial(first, n), actions);
    RunKeepsAttempts(p, Initial(first, n), actions);
  }

  /**
   When `commit()` swallows an update: because it compares with the base checkout and not with the
   branch, `transact` returns with nothing of its last attempt on the branch exactly when the
   operation led to the base ledger. So its change is dropped exactly when it led back there from
   another ledger.
   */
  lemma DroppedExactlyWhen(p: Program, s: Sys, w: nat)
    requires Reachable(p, s) && Succeeded(s, w)
    ensures var pc := s.writers[w].pc;
      && (!Contributed(s, w) <==> pc.after == pc.base)
      && (!Contributed(s, w) && pc.after != pc.before <==> pc.after == pc.base && pc.before != pc.base)
  {
    ReachableInv(p, s);
    ReachableAttempts(p, s);
    var pc := s.writers[w].pc;
    assert WriterOk(p, s, w, pc);
    assert AttemptOk(s, w);
    if pc.published.Some? {
      var i :| 0 <= i < |s.log| && s.log[i] == pc.published.value;
      assert Contributed(s, w);
    }
  }

  /** Two writers that toggle between two ledgers. */
  ghost function Toggle(a: LedgerState, b: LedgerState): Program {
    Program((w: nat, x: LedgerState, y: LedgerState) => y == if x == a then b else a, x => true, 20)
  }

  ghost function Pair(a: LedgerState, commits: seq<Commit>, log: seq<Sha>, pc0: Pc, pc1: Pc): Sys {
    Sys(a, a, commits, log, [Writer(0, pc0), Writer(0, pc1)])
  }

  function PublishB(b: LedgerState): seq<Action> {
    [List(0), Fetch(0), Open(0), Operate(0, Some(b)), Save(0), Push(0, true, Accepted)]
  }

  function UndoB(a: LedgerState): seq<Action> {
    [List(1), Fetch(1), Open(1), Operate(1, Some(a)), Save(1)]
  }

  lemma FirstPublishes(a: LedgerState, b: LedgerState)
    requires a != b
    ensures Exec(Toggle(a, b), Pair(a, [], [], Ready, Ready), PublishB(b))
         == Pair(a, [Commit(0, 0, None, a, b)], [0], Returned(Some(0), a, a, b), Ready)
  {
    Unfold(Toggle(a, b), Pair(a, [], [], Ready, Ready), PublishB(b),
           [Pair(a, [], [], Listed(false), Ready),
            Pair(a, [], [], Fetched(None), Ready),
            Pair(a, [], [], Opened(None, a, a), Ready),
            Pair(a, [], [], Ran(None, a, a, b), Ready),
            Pair(a, [Commit(0, 0, None, a, b)], [], Saved(None, a, 0), Ready),
            Pair(a, [Commit(0, 0, None, a, b)], [0], Returned(Some(0), a, a, b), Ready)]);
  }

  lemma SecondUndoes(a: LedgerState, b: LedgerState, commits: seq<Commit>, pc: Pc)
    requires a != b && commits == [Commit(0, 0, None, a, b)]
    ensures Exec(Toggle(a, b), Pair(a, commits, [0], pc, Ready), UndoB(a))
         == Pair(a, commits, [0], pc, Returned(None, a, b, a))
  {
    Unfold(Toggle(a, b), Pair(a, commits, [0], pc, Ready), UndoB(a),
           [Pair(a, commits, [0], pc, Listed(true)),
            Pair(a, commits, [0], pc, Fetched(Some(0))),
            Pair(a, commits, [0], pc, Opened(Some(0), a, b)),
            Pair(a, commits, [0], pc, Ran(Some(0), a, b, a)),
            Pair(a, commits, [0], pc, Returned(None, a, b, a))]);
  }

  /** Such a run exists: writer 1 undoes writer 0, returns, and the branch still carries writer 0's ledger. */
  lemma UndoIsDropped(a: LedgerState, b: LedgerState) returns (s: Sys)
    requires a != b
    ensures Reachable(Toggle(a, b), s) && Succeeded(s, 1) && !Contributed(s, 1)
    ensures s.writers[1].pc.before == b && s.writers[1].pc.after == a
    ensures LedgerBefore(s, |s.log|) == b
  {
    FirstPublishes(a, b);
    SecondUndoes(a, b, [Commit(0, 0, None, a, b)], Returned(Some(0), a, a, b));
    assert Initial(a, 2) == Pair(a, [], [], Ready, Ready);
    ExecAppend(Toggle(a, b), Initial(a, 2), PublishB(b), UndoB(a));
    s := Exec(Toggle(a, b), Initial(a, 2), PublishB(b) + UndoB(a));
  }

  /** A run written out state by state. */
  lemma {:induction false} Unfold(p: Program, s: Sys, actions: seq<Action>, states: seq<Sys>)
    requires |states| == |actions| > 0 && Apply(p, s, actions[0]) == states[0]
    requires forall i :: 0 < i < |actions| ==> Apply(p, states[i - 1], actions[i]) == states[i]
    ensures Exec(p, s, actions) == states[|states| - 1]
    decreases |actions|
  {
    if |actions| > 1 {
      Unfold(p, states[0], actions[1..], states[1..]);
    } else {
      assert Exec(p, s, actions) == Exec(p, states[0], []);
    }
  }

  // ---------------------------------------------------------------- append-only operations

  /** Every operation of the program only appends. */
  ghost predicate AppendOnly(p: Program) {
    forall w: nat, x: LedgerState, y: LedgerState :: Completed(p, w, x, y) ==> Extends(x, y)
  }

  /** Published histories only grow by appending. */
  lemma {:induction false} PublishedGrowsByAppending(p: Program, s: Sys, i: nat, j: nat)
    requires Reachable(p, s) && AppendOnly(p) && p.valid(s.first) && i <= j <= |s.log|
    ensures Extends(LedgerBefore(s, i), LedgerBefore(s, j))
    decreases j
  {
    if i < j {
      PublishedGrowsByAppending(p, s, i, j - 1);
      NoLostUpdate(p, s, j - 1);
      if j > 1 {
        NoLostUpdate(p, s, j - 2);
      }
      assert Completed(p, s.commits[s.log[j - 1]].writer, LedgerBefore(s, j - 1), LedgerBefore(s, j));
      ExtendsTransitive(LedgerBefore(s, i), LedgerBefore(s, j - 1), LedgerBefore(s, j));
    }
  }

  /** For append-only operations the dropped update above cannot happen: nothing a returned run did is missing. */
  lemma SuccessIsKept(p: Program, s: Sys, w: nat)
    requires Reachable(p, s) && AppendOnly(p) && p.valid(s.first) && Succeeded(s, w)
    ensures Extends(s.writers[w].pc.after, LedgerBefore(s, |s.log|))
  {
    var k := SuccessIsPublished(p, s, w);
    PublishedGrowsByAppending(p, s, k, |s.log|);
  }

  // ---------------------------------------------------------------- recording decisions

  /** `record_propagations` for one writer: each decision appended to its source's entry. */
  function RecordAll(st: LedgerState, jobs: seq<(Source, Decision)>): Option<LedgerState>
    decreases |jobs|
  {
    if jobs == [] then Some(st)
    else
      var r := AppendSource(st, jobs[0].0, jobs[0].1);
      if r.Failure? then None else RecordAll(r.value.0, jobs[1..])
  }

  ghost function Recording(jobs: seq<seq<(Source, Decision)>>, attempts: nat): Program {
    Program((w: nat, x: LedgerState, y: LedgerState) => if w < |jobs| then RecordAll(x, jobs[w]) == Some(y) else x == y,
            x => ValidEntries(x), attempts)
  }

  lemma {:induction false} RecordAllCorrect(st: LedgerState, jobs: seq<(Source, Decision)>)
    requires ValidEntries(st) && RecordAll(st, jobs).Some?
    ensures var st' := RecordAll(st, jobs).value;
      ValidEntries(st') && Extends(st, st') && forall i :: 0 <= i < |jobs| ==> Has(st', jobs[i].0, jobs[i].1)
    decreases |jobs|
  {
    if jobs != [] {
      AppendSourceCorrect(st, jobs[0].0, jobs[0].1);
      var st1 := AppendSource(st, jobs[0].0, jobs[0].1).value.0;
      var st' := RecordAll(st, jobs).value;
      RecordAllCorrect(st1, jobs[1..]);
      ExtendsTransitive(st, st1, st');
      HasExtends(st1, st', jobs[0].0, jobs[0].1);
      forall i | 0 <= i < |jobs| ensures Has(st', jobs[i].0, jobs[i].1) {
        if i > 0 {
          assert jobs[i] == jobs[1..][i - 1];
        }
      }
    }
  }

  lemma RecordingAppends(jobs: seq<seq<(Source, Decision)>>, attempts: nat)
    ensures AppendOnly(Recording(jobs, attempts))
  {
    forall w: nat, x: LedgerState | ValidEntries(x) && w < |jobs| && RecordAll(x, jobs[w]).Some?
      ensures Extends(x, RecordAll(x, jobs[w]).value)
    {
      RecordAllCorrect(x, jobs[w]);
    }
  }

  /**
   Replay has exactly-once effect: with any interleaving, rejected pushes and pushes that land
   but report failure, every writer that returns success has each of its keyed decisions in the
   branch ledger exactly once.
   */
  lemma ReplayIsExactlyOnce(jobs: seq<seq<(Source, Decision)>>, attempts: nat, s: Sys, w: nat, i: nat)
    requires Reachable(Recording(jobs, attempts), s) && ValidEntries(s.first)
    requires Succeeded(s, w) && w < |jobs| && i < |jobs[w]|
    ensures RecordedOnce(LedgerBefore(s, |s.log|), jobs[w][i].0, jobs[w][i].1)
  {
    var p := Recording(jobs, attempts);
    var head := LedgerBefore(s, |s.log|);
    RecordingAppends(jobs, attempts);
    var k := SuccessIsPublished(p, s, w);
    SuccessIsKept(p, s, w);
    if s.log != [] {
      NoLostUpdate(p, s, |s.log| - 1);
    }
    RecordAllCorrect(s.writers[w].pc.before, jobs[w]);
    HasExtends(s.writers[w].pc.after, head, jobs[w][i].0, jobs[w][i].1);
    HasOnce(head, jobs[w][i].0, jobs[w][i].1);
  }
}
