/**
 `poll` as the operation of `transact`: a poll that stops leaves the ledger on the state branch as it
 was, cursor included, although the tracking issues it opened are there.
 */
module PollTransactions {
  import opened Wrappers
  import opened Models
  import opened Ledger
  import opened Poll
  import opened PollRuns

  function PollAt(w: World, t: Turn): Progress {
    PollOnce(BodyOf(t.facts), w, t)
  }

  /** What the next poll finds: the new ledger only if the operation succeeded. */
  function Transacted(): (World, Turn) -> World {
    (w: World, t: Turn) =>
      if PollAt(w, t).finished then PollAt(w, t).world else World(w.ledger, PollAt(w, t).world.issues)
  }

  function WorldAt(w: World, turns: seq<Turn>, k: nat): World
    requires k <= |turns|
  {
    PollsTo(Transacted(), w, turns, k)
  }

  lemma StepIs(w: World, turns: seq<Turn>, k: nat)
    requires k < |turns|
    ensures WorldAt(w, turns, k + 1) == Transacted()(WorldAt(w, turns, k), turns[k])
  {
  }

  lemma PollKeepsOrder(w: World, t: Turn)
    requires WorldOk(w)
    ensures WorldOk(PollAt(w, t).world)
  {
    BodyOfIsGood(t.facts);
    PollIsGood(BodyOf(t.facts), w, t);
  }

  /** As long as every poll stops, the ledger stays. */
  lemma {:induction false} LedgerStays(w: World, turns: seq<Turn>, i: nat, k: nat)
    requires i <= k <= |turns| && WorldOk(WorldAt(w, turns, i))
    requires forall j :: i <= j < k ==> !PollAt(WorldAt(w, turns, j), turns[j]).finished
    ensures WorldAt(w, turns, k).ledger == WorldAt(w, turns, i).ledger && WorldOk(WorldAt(w, turns, k))
    decreases k
  {
    if i < k {
      LedgerStays(w, turns, i, k - 1);
      StepIs(w, turns, k - 1);
      PollKeepsOrder(WorldAt(w, turns, k - 1), turns[k - 1]);
    }
  }

  /** A finished poll asks for every target of a listed change that is still open after it. */
  lemma FinishedAsks(w: World, t: Turn, d: Change, target: string)
    requires WorldOk(w) && PollAt(w, t).finished && Shows(w, t, d)
    requires Open(t.facts, PollAt(w, t).world.ledger, d, target)
    ensures RequestFor(d, target, t.facts.resolve(d).actors) in PollAt(w, t).requests
  {
    FinishedRequestsAll(t.facts, Load(w, t.now), Listed(Load(w, t.now), t.remote), t.stop, d, target);
  }

  /** The poll is shown the pull request of `c`, and asks for whatever is still open of it. */
  ghost predicate AsksFor(w: World, t: Turn, c: Change) {
    exists d: Change :: SamePull(c, d) && AsksAbout(w, t, d)
  }

  ghost predicate AsksAbout(w: World, t: Turn, d: Change) {
    && Shows(w, t, d)
    && forall target :: Open(t.facts, PollAt(w, t).world.ledger, d, target) ==>
         RequestFor(d, target, t.facts.resolve(d).actors) in PollAt(w, t).requests
  }

  /**
   The requests of a poll that stops are not lost: if a poll was shown a change and it and its successors
   stop, however late in their loops, the first one that finishes is shown the pull request again and
   asks for every target that is still open.
   */
  lemma StoppedPollsAskAgain(w: World, turns: seq<Turn>, i: nat, k: nat, c: Change)
    requires Growing(turns) && i <= k < |turns| && WorldOk(WorldAt(w, turns, i))
    requires Shows(WorldAt(w, turns, i), turns[i], c)
    requires forall j :: i <= j < k ==> !PollAt(WorldAt(w, turns, j), turns[j]).finished
    requires PollAt(WorldAt(w, turns, k), turns[k]).finished
    ensures AsksFor(WorldAt(w, turns, k), turns[k], c)
  {
    var before, t := WorldAt(w, turns, k), turns[k];
    LedgerStays(w, turns, i, k);
    ListedExactly(WorldAt(w, turns, i), turns[i].remote, c);
    ShownIsMerged(Transacted(), w, turns, i, c);
    StillMerged(turns, i, k, c);
    var d :| SamePull(c, d) && MergedIn(t.remote, d);
    ListedExactly(before, t.remote, d);
    forall target | Open(t.facts, PollAt(before, t).world.ledger, d, target)
      ensures RequestFor(d, target, t.facts.resolve(d).actors) in PollAt(before, t).requests
    {
      FinishedAsks(before, t, d, target);
    }
    assert AsksAbout(before, t, d);
  }
}
