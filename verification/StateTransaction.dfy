/** The `transact` loop itself, run statement by statement against a branch other writers share. */
module StateTransaction {
  import opened Wrappers
  import opened Models
  import opened StateProtocol
  import opened StateTheorems

  lemma ReachableStep(p: Program, s: Sys, a: Action)
    requires Reachable(p, s)
    ensures Reachable(p, Apply(p, s, a))
  {
    var first: LedgerState, n: nat, actions: seq<Action> :| s == Exec(p, Initial(first, n), actions);
    ExecAppend(p, Initial(first, n), actions, [a]);
    assert Exec(p, s, [a]) == Apply(p, s, a) by {
      assert Exec(p, s, [a]) == Exec(p, Apply(p, s, a), []);
    }
    assert Apply(p, s, a) == Exec(p, Initial(first, n), actions + [a]);
  }

  /** `a` is not a statement of writer `w`. */
  predicate ByOthers(a: Action, w: nat) {
    a.MergeIntoBase? || a.w != w
  }

  lemma OthersLeaveMe(p: Program, s: Sys, a: Action, w: nat)
    requires ByOthers(a, w) && w < |s.writers|
    ensures var s' := Apply(p, s, a);
      |s'.writers| == |s.writers| && s'.writers[w] == s.writers[w] && s.commits <= s'.commits
  {
  }

  /**
   What the other writers do between two statements, whether a command of ours fails there, what the
   operation makes of a ledger in each attempt, and what becomes of each push.
   */
  datatype Schedule = Schedule(
    others: nat -> seq<Action>, fails: nat -> bool,
    results: (nat, LedgerState) -> Option<LedgerState>, pushes: nat -> (bool, Reply))

  ghost predicate Fits(p: Program, schedule: Schedule, w: nat) {
    && (forall i: nat, a :: a in schedule.others(i) ==> ByOthers(a, w))
    && (forall i: nat, x: LedgerState :: schedule.results(i, x).Some? ==> p.may(w, x, schedule.results(i, x).value))
  }

  class SharedBranch {
    var sys: Sys
    var clock: nat

    constructor (initial: Sys)
      ensures sys == initial && clock == 0
    {
      sys := initial;
      clock := 0;
    }

    ghost predicate Running(p: Program, w: nat, schedule: Schedule)
      reads this
    {
      Reachable(p, sys) && w < |sys.writers| && Fits(p, schedule, w)
    }

    /** The writers move between two statements of writer `w`, whose next command may fail. */
    method Interleave(p: Program, w: nat, schedule: Schedule) returns (alive: bool)
      requires Running(p, w, schedule) && !sys.writers[w].pc.Returned?
      modifies this
      ensures Running(p, w, schedule) && old(sys.commits) <= sys.commits
      ensures sys.writers[w] == if alive then old(sys.writers[w]) else old(sys.writers[w]).(pc := Raised)
    {
      var moves := schedule.others(clock);
      for i := 0 to |moves|
        invariant Running(p, w, schedule) && sys.writers[w] == old(sys.writers[w]) && old(sys.commits) <= sys.commits
        invariant clock == old(clock)
      {
        assert moves[i] in schedule.others(clock);
        ReachableStep(p, sys, moves[i]);
        OthersLeaveMe(p, sys, moves[i], w);
        sys := Apply(p, sys, moves[i]);
      }
      alive := !schedule.fails(clock);
      if !alive {
        Take(p, Abort(w));
      }
      clock := clock + 1;
    }

    method Take(p: Program, a: Action)
      requires Reachable(p, sys)
      modifies this`sys
      ensures Reachable(p, sys) && sys == Apply(p, old(sys), a)
    {
      ReachableStep(p, sys, a);
      sys := Apply(p, sys, a);
    }

    /** `snapshot`: the lease is the fetched SHA and the ledger is restored from that same SHA. */
    method Snapshot(p: Program, w: nat, schedule: Schedule)
      returns (alive: bool, expected: Option<Sha>, base: LedgerState, ledger: LedgerState)
      requires Running(p, w, schedule) && sys.writers[w].pc.Ready?
      modifies this
      ensures Running(p, w, schedule)
      ensures sys.writers[w] == old(sys.writers[w]).(pc := if alive then Opened(expected, base, ledger) else Raised)
    {
      expected, base, ledger := None, sys.base, sys.base;
      alive := Interleave(p, w, schedule);
      if !alive {
        return;
      }
      var present := sys.log != [];
      Take(p, List(w));
      alive := Interleave(p, w, schedule);
      if !alive {
        return;
      }
      expected := if present then Head(sys) else None;
      Take(p, Fetch(w));
      alive := Interleave(p, w, schedule);
      if !alive {
        return;
      }
      assert WriterOk(p, sys, w, sys.writers[w].pc) by { ReachableInv(p, sys); }
      base := sys.base;
      assert expected.Some? ==> expected.value < |sys.commits| by { ReachableInv(p, sys); }
      ledger := if expected.None? then base else sys.commits[expected.value].ledger;
      Take(p, Open(w));
    }

    /** `publish`: the push with its lease, and the second look at the remote after exit code 1. */
    method Publish(p: Program, w: nat, schedule: Schedule, attempt: nat, expected: Option<Sha>, base: LedgerState,
      mine: Sha)
      returns (published: Result<bool>)
      requires Running(p, w, schedule)
      requires sys.writers[w] == Writer(attempt, Saved(expected, base, mine)) && mine < |sys.commits|
      modifies this
      ensures Running(p, w, schedule)
      ensures published == Success(true) ==>
        && sys.writers[w].pc.Returned? && sys.writers[w].attempt == attempt
        && sys.writers[w].pc.after == old(sys.commits[mine].ledger)
      ensures published == Success(false) ==>
        sys.writers[w] == (if attempt + 1 < p.attempts then Writer(attempt + 1, Ready) else Writer(attempt, Raised))
      ensures published.Failure? ==> sys.writers[w] == Writer(attempt, Raised)
    {
      var alive := Interleave(p, w, schedule);
      if !alive {
        return Failure("git push failed");
      }
      var (arrives, reply) := schedule.pushes(attempt);
      if reply.Accepted? && !(arrives && Head(sys) == expected) {
        reply := Refused;
      }
      Take(p, Push(w, arrives, reply));
      if reply.Accepted? {
        return Success(true);
      }
      if reply.Broken? {
        return Failure("git push failed");
      }
      alive := Interleave(p, w, schedule);
      if !alive {
        return Failure("git ls-remote failed");
      }
      var current := Head(sys);
      Take(p, Recheck(w));
      if current != expected {
        return Success(false);
      }
      return Failure("git push failed");
    }

    /**
     `transact` for writer `w`. Whatever the schedule, the run is one of the protocol, so all of
     its theorems hold of it; it returns a ledger exactly when the protocol's writer has returned.
     */
    method Transact(p: Program, w: nat, schedule: Schedule) returns (r: Result<LedgerState>)
      requires Running(p, w, schedule) && sys.writers[w] == Writer(0, Ready)
      modifies this
      ensures Running(p, w, schedule)
      ensures r.Success? ==> Succeeded(sys, w) && sys.writers[w].pc.after == r.value
      ensures r.Failure? ==> sys.writers[w].pc == (if p.attempts == 0 then Ready else Raised)
      ensures p.attempts > 0 ==> sys.writers[w].attempt < p.attempts
    {
      if p.attempts < 1 {
        return Failure("state transaction attempts must be positive");
      }
      for attempt := 0 to p.attempts
        invariant Running(p, w, schedule)
        invariant attempt < p.attempts ==> sys.writers[w] == Writer(attempt, Ready)
        invariant attempt == p.attempts ==> sys.writers[w] == Writer(attempt - 1, Raised)
      {
        var alive, expected, base, ledger := Snapshot(p, w, schedule);
        if !alive {
          return Failure("snapshot failed");
        }
        alive := Interleave(p, w, schedule);
        if !alive {
          return Failure("state operation failed");
        }
        var result := schedule.results(attempt, ledger);
        Take(p, Operate(w, result));
        if !p.valid(ledger) {
          return Failure("invalid restored state");
        }
        if result.None? {
          return Failure("state operation failed");
        }
        if !p.valid(result.value) {
          return Failure("invalid updated state");
        }
        alive := Interleave(p, w, schedule);
        if !alive {
          return Failure("git commit failed");
        }
        var mine := |sys.commits|;
        Take(p, Save(w));
        if result.value == base {
          return Success(result.value);
        }
        var published := Publish(p, w, schedule, attempt, expected, base, mine);
        if published.Failure? {
          return Failure(published.error);
        }
        if published.value {
          return Success(result.value);
        }
      }
      return Failure("state changed during all transaction attempts");
    }
  }
}
