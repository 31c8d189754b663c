/** The body of `publish`, run against a remote other people use, stopping at any statement. */
module Publisher {
  import opened Wrappers
  import opened GitGraph
  import opened PublicationProtocol
  import opened PublicationTheorems

  /** Things that happen without a publication run. */
  predicate Outside(a: Action) {
    a.Ask? || a.HumanCommit? || a.HumanPull? || a.HumanComment?
  }

  lemma OutsideKeepsRun(h: Hub, a: Action)
    requires Outside(a)
    ensures Apply(h, a).run == h.run && h.commits <= Apply(h, a).commits
  {
  }

  /** What happens before each statement, each remote answer, and the statement before which the run stops. */
  datatype Schedule = Schedule(others: nat -> seq<Action>, answers: nat -> bool, stop: nat)

  ghost predicate OnlyOthers(schedule: Schedule) {
    forall i: nat, a :: a in schedule.others(i) ==> Outside(a)
  }

  /** The ancestry check and the search for the published revision. */
  function Lookup(h: Hub, key: string, head: Id, remote: Id): Result<Id> {
    if !IsAncestor(h.commits, head, remote) then
      Failure("revision branch no longer descends from the recorded pull request head")
    else
      match FindKeyed(h.commits, head, remote, key, |h.commits|)
      case None => Failure("revision branch changed before publication")
      case Some(c) =>
        if h.commits[c].summary == "" then Failure("published revision has no stored summary") else Success(c)
  }

  lemma LookupIsNext(h: Hub, existing: Option<Seen>, remote: Id)
    requires h.run.Some? && h.run.value.kind.Revision? && remote != h.run.value.kind.head
    requires h.run.value.pc == Fetched(existing, Some(remote))
    ensures var found := Lookup(h, h.run.value.key, h.run.value.kind.head, remote);
      Apply(h, Advance(true)) == At(h, if found.Success? then Pushed(existing, found.value) else Failed)
  {
    assert Apply(h, Advance(true)) == Next(h, true) == PushRevision(h, existing, Some(remote), true);
  }

  predicate IsMerged(existing: Option<Seen>) {
    existing.Some? && existing.value.pull.state == Merged
  }

  /** Where the checks on the pull request lead. */
  function CheckedPc(kind: Kind, existing: Option<Seen>): Pc {
    if kind.Revision? && (existing.None? || existing.value.number != kind.pull
      || existing.value.pull.state != Open) then Failed
    else if IsMerged(existing) then Done(existing.value.number)
    else if existing.Some? && existing.value.pull.state == Closed then Failed
    else Checked(existing)
  }

  lemma CheckIsNext(h: Hub, existing: Option<Seen>)
    requires h.run.Some? && h.run.value.pc == Found(existing)
    ensures Apply(h, Advance(true)).run == Some(h.run.value.(pc := CheckedPc(h.run.value.kind, existing)))
  {
  }

  class Remote {
    var hub: Hub
    var clock: nat

    constructor (initial: Hub)
      ensures hub == initial && clock == 0
    {
      hub := initial;
      clock := 0;
    }

    ghost predicate Running(key: string, kind: Kind, pc: Pc)
      reads this
    {
      Reachable(hub) && hub.run.Some? && hub.run.value.key == key && hub.run.value.kind == kind
        && hub.run.value.pc == pc
    }

    /** Other people act; then either the run stops here or its next statement is about to execute. */
    method Turn(schedule: Schedule) returns (stopped: bool)
      requires Reachable(hub) && hub.run.Some? && OnlyOthers(schedule)
      modifies this
      ensures Reachable(hub)
      ensures stopped ==> hub.run.None?
      ensures !stopped ==> hub.run == old(hub.run) && old(hub.commits) <= hub.commits
    {
      var moves := schedule.others(clock);
      for i := 0 to |moves|
        invariant Reachable(hub) && hub.run == old(hub.run) && old(hub.commits) <= hub.commits
      {
        assert moves[i] in schedule.others(old(clock));
        StepIsReachable(hub, moves[i]);
        OutsideKeepsRun(hub, moves[i]);
        hub := Apply(hub, moves[i]);
      }
      stopped := clock == schedule.stop;
      if stopped {
        StepIsReachable(hub, Crash);
        hub := Apply(hub, Crash);
      }
      clock := clock + 1;
    }

    /** The next statement. */
    method Execute(ok: bool)
      requires Reachable(hub)
      modifies this`hub
      ensures Reachable(hub) && hub == Apply(old(hub), Advance(ok))
    {
      StepIsReachable(hub, Advance(ok));
      hub := Apply(hub, Advance(ok));
    }

    /** `_find_existing_pull`. */
    method FindPull(key: string, kind: Kind, schedule: Schedule) returns (r: Result<Option<Seen>>)
      requires Running(key, kind, Begin) && OnlyOthers(schedule)
      modifies this
      ensures Reachable(hub)
      ensures r.Success? ==> Running(key, kind, Found(r.value))
      ensures r.Failure? ==> hub.run.None?
    {
      var stopped := Turn(schedule);
      if stopped { return Failure("stopped"); }
      var existing := if hub.pulls == [] then None else Some(Seen(0, hub.pulls[0]));
      Execute(true);
      return Success(existing);
    }

    /** The checks on its state, and the conversion to a draft. */
    method InspectPull(key: string, kind: Kind, existing: Option<Seen>, schedule: Schedule) returns (r: Result<bool>)
      requires Running(key, kind, Found(existing)) && OnlyOthers(schedule)
      modifies this
      ensures Reachable(hub)
      ensures r.Success? ==> Running(key, kind,
        if IsMerged(existing) then Done(existing.value.number) else Checked(existing))
      ensures r.Failure? ==> hub.run.None? || hub.run.value.pc.Failed?
    {
      var stopped := Turn(schedule);
      if stopped { return Failure("stopped"); }
      CheckIsNext(hub, existing);
      Execute(true);
      if kind.Revision? {
        if existing.None? || existing.value.number != kind.pull {
          return Failure("recorded revision pull request does not match the stable branch");
        }
        if existing.value.pull.state != Open {
          return Failure("recorded revision pull request is no longer open");
        }
      }
      if existing.Some? && existing.value.pull.state == Closed {
        return Failure("existing Agricola pull request is closed; reopen it before retrying");
      }
      return Success(true);
    }

    method Locate(key: string, kind: Kind, schedule: Schedule) returns (r: Result<Option<Seen>>)
      requires Running(key, kind, Begin) && OnlyOthers(schedule)
      modifies this
      ensures Reachable(hub)
      ensures r.Success? ==> Running(key, kind,
        if IsMerged(r.value) then Done(r.value.value.number) else Checked(r.value))
      ensures r.Failure? ==> hub.run.None? || hub.run.value.pc.Failed?
    {
      var found := FindPull(key, kind, schedule);
      if found.Failure? {
        return Failure(found.error);
      }
      var inspected := InspectPull(key, kind, found.value, schedule);
      return if inspected.Success? then Success(found.value) else Failure(inspected.error);
    }

    /** The look at the remote branch. */
    method ReadBranch(key: string, kind: Kind, existing: Option<Seen>, schedule: Schedule)
      returns (r: Result<Option<Id>>)
      requires Running(key, kind, Checked(existing)) && OnlyOthers(schedule)
      modifies this
      ensures Reachable(hub)
      ensures r.Success? ==> Running(key, kind, Fetched(existing, r.value)) && (kind.Revision? ==> r.value.Some?)
      ensures r.Failure? ==> hub.run.None? || hub.run.value.pc.Failed?
    {
      var stopped := Turn(schedule);
      if stopped { return Failure("stopped"); }
      var local := hub.run.value.local;
      assert local < |hub.commits| by { ReachableInv(hub); }
      var summary := hub.commits[local].summary;
      var remote := hub.branch;
      Execute(true);
      if kind.Revision? {
        if summary == "" {
          return Failure("revision publication requires a summary and stat");
        }
        if remote.None? {
          return Failure("git fetch failed");
        }
      }
      return Success(remote);
    }

    /** The branch update of a first publication, and of a revision whose head has not moved. */
    method Push(key: string, kind: Kind, existing: Option<Seen>, remote: Option<Id>, schedule: Schedule)
      returns (r: Result<Id>)
      requires Running(key, kind, Fetched(existing, remote)) && OnlyOthers(schedule)
      requires kind.Revision? ==> remote == Some(kind.head)
      modifies this
      ensures Reachable(hub)
      ensures r.Success? ==> Running(key, kind, Pushed(existing, r.value))
      ensures r.Failure? ==> hub.run.None? || hub.run.value.pc.Failed?
    {
      var stopped := Turn(schedule);
      if stopped { return Failure("stopped"); }
      var local := hub.run.value.local;
      var answer := schedule.answers(clock);
      var accepted := answer &&
        if kind.Initial? && remote.Some? then hub.branch == remote else FastForwards(hub, local);
      Execute(answer);
      if !accepted {
        return Failure("git push failed");
      }
      return Success(local);
    }

    /** For a revision whose branch has moved on: the commit that an earlier run pushed. */
    method Recover(key: string, kind: Kind, existing: Option<Seen>, remote: Id, schedule: Schedule)
      returns (r: Result<Id>)
      requires Running(key, kind, Fetched(existing, Some(remote))) && OnlyOthers(schedule)
      requires kind.Revision? && remote != kind.head
      modifies this
      ensures Reachable(hub)
      ensures r.Success? ==> Running(key, kind, Pushed(existing, r.value))
      ensures r.Failure? ==> hub.run.None? || hub.run.value.pc.Failed?
    {
      var stopped := Turn(schedule);
      if stopped { return Failure("stopped"); }
      var outcome := Lookup(hub, key, kind.head, remote);
      LookupIsNext(hub, existing, remote);
      Execute(true);
      return outcome;
    }

    /** The pull request: the one found, or a new draft. */
    method EnsurePull(key: string, kind: Kind, existing: Option<Seen>, source: Id, schedule: Schedule)
      returns (r: Result<nat>)
      requires Running(key, kind, Pushed(existing, source)) && OnlyOthers(schedule)
      modifies this
      ensures Reachable(hub)
      ensures r.Success? ==> Running(key, kind, Created(r.value, source))
      ensures r.Failure? ==> hub.run.None? || hub.run.value.pc.Failed?
    {
      var stopped := Turn(schedule);
      if stopped { return Failure("stopped"); }
      var answer := schedule.answers(clock);
      var pull := if existing.Some? then existing.value.number else |hub.pulls|;
      Execute(answer);
      if existing.None? && !answer {
        return Failure("GitHub pull request creation failed");
      }
      return Success(pull);
    }

    /** `_post_revision_summary`. */
    method Report(key: string, kind: Kind, pull: nat, source: Id, schedule: Schedule) returns (r: Result<nat>)
      requires Running(key, kind, Created(pull, source)) && OnlyOthers(schedule)
      modifies this
      ensures Reachable(hub)
      ensures r.Success? ==> Running(key, kind, Done(r.value))
      ensures r.Failure? ==> hub.run.None? || hub.run.value.pc.Failed?
    {
      var stopped := Turn(schedule);
      if stopped { return Failure("stopped"); }
      var known := kind.Initial? || Mentioned(hub.comments, pull, key);
      Execute(true);
      if known {
        return Success(pull);
      }
      stopped := Turn(schedule);
      if stopped { return Failure("stopped"); }
      var answer := schedule.answers(clock);
      assert source < |hub.commits| by { ReachableInv(hub); }
      Execute(answer);
      if !answer {
        return Failure("comment creation failed");
      }
      return Success(pull);
    }

    /**
     `publish`. Every run, stopped or not, is a run of the protocol, so its guarantees hold
     afterwards; it returns a pull request exactly when the protocol's run is done.
     */
    method Publish(key: string, kind: Kind, schedule: Schedule) returns (r: Result<nat>)
      requires Running(key, kind, Begin) && OnlyOthers(schedule)
      modifies this
      ensures Reachable(hub)
      ensures r.Success? ==> Running(key, kind, Done(r.value))
      ensures r.Failure? ==> hub.run.None? || hub.run.value.pc.Failed?
    {
      var located := Locate(key, kind, schedule);
      if located.Failure? {
        return Failure(located.error);
      }
      var existing := located.value;
      if IsMerged(existing) {
        return Success(existing.value.number);
      }
      var remote := ReadBranch(key, kind, existing, schedule);
      if remote.Failure? {
        return Failure(remote.error);
      }
      var source: Result<Id>;
      if kind.Initial? || remote.value == Some(kind.head) {
        source := Push(key, kind, existing, remote.value, schedule);
      } else {
        source := Recover(key, kind, existing, remote.value.value, schedule);
      }
      if source.Failure? {
        return Failure(source.error);
      }
      var pull := EnsurePull(key, kind, existing, source.value, schedule);
      if pull.Failure? {
        return Failure(pull.error);
      }
      r := Report(key, kind, pull.value, source.value, schedule);
    }
  }
}
