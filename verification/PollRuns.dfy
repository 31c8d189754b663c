/**
 `poll` of `agricola/service.py`: the loop over the listed changes, and any run of polls. The loop
 is generic in its body; the theorems are about the body of `Poll`.
 */
module PollRuns {
  import opened Wrappers
  import opened Text
  import opened Models
  import opened Ledger
  import opened Poll
  import Listing

  /** `ok`: the label snapshot does not conflict; `after`: the world after so many statements; `ask`: the requests. */
  datatype LoopBody = LoopBody(
    ok: (World, Change) -> bool, after: (World, Change, nat) -> World, ask: (World, Change) -> seq<Request>)

  function BodyOf(f: Facts): LoopBody {
    LoopBody((w: World, c: Change) => Snapshots(f, w, c),
             (w: World, c: Change, k: nat) => if Snapshots(f, w, c) then After(f, w, c, k) else w,
             (w: World, c: Change) =>
               if Snapshots(f, w, c) then Propagations(After(f, w, c, 2), c, f.resolve(c)) else [])
  }

  /** The loop over the listed changes, stopping when `stop` state-changing statements are done. */
  function Run(b: LoopBody, w: World, changes: seq<Change>, stop: nat): Progress
    decreases |changes|
  {
    if changes == [] then Progress(w, [], true)
    else
      var c := changes[0];
      if !b.ok(w, c) then Progress(w, [], false)
      else if stop < 3 then Progress(b.after(w, c, stop), [], false)
      else
        var rest := Run(b, b.after(w, c, 3), changes[1..], stop - 3);
        Progress(rest.world, b.ask(w, c) + rest.requests, rest.finished)
  }

  function Listed(w: World, remote: seq<Listing.Item>): seq<Change> {
    Listing.SortChanges(Listing.Window(remote, Cursor(w) - OVERLAP))
  }

  /** One poll: what the host lists and knows, the time, and after how many statements it stops. */
  datatype Turn = Turn(remote: seq<Listing.Item>, facts: Facts, now: int, stop: nat)

  function PollOnce(b: LoopBody, w: World, t: Turn): Progress {
    Run(b, Load(w, t.now), Listed(Load(w, t.now), t.remote), t.stop)
  }

  // ---------------------------------------------------------------- the loop

  /** What the loop relies on in its body. */
  ghost predicate GoodBody(f: Facts, b: LoopBody) {
    forall w: World, c: Change, k: nat {:trigger BodyGood(f, w, c, k, b.after(w, c, k))} ::
      WorldOk(w) && b.ok(w, c) && k <= 3 ==> BodyGood(f, w, c, k, b.after(w, c, k))
  }

  lemma BodyOfIsGood(f: Facts)
    ensures GoodBody(f, BodyOf(f))
  {
    forall w: World, c: Change, k: nat | WorldOk(w) && BodyOf(f).ok(w, c) && k <= 3
      ensures BodyGood(f, w, c, k, BodyOf(f).after(w, c, k))
    {
      BodyIsGood(f, w, c, k);
    }
  }

  ghost predicate AllInWindow(w: World, changes: seq<Change>) {
    forall c :: c in changes ==> InWindow(w, c)
  }

  /** The change is handled, or the next poll lists it. */
  ghost predicate Safe(f: Facts, w: World, c: Change) {
    Handled(f, w, c) || InWindow(w, c)
  }

  ghost predicate AllSafe(f: Facts, w: World, changes: seq<Change>) {
    forall c :: c in changes ==> Safe(f, w, c)
  }

  lemma LaterReflexive(w: World)
    ensures Later(w, w)
  {
  }

  ghost predicate Moved(w: World, w': World) {
    WorldOk(w') && Later(w, w')
  }

  lemma MovedTransitive(a: World, b: World, c: World)
    requires Moved(a, b) && Moved(b, c)
    ensures Moved(a, c)
  {
    LaterTransitive(a, b, c);
  }

  lemma BodyMoves(f: Facts, b: LoopBody, w: World, c: Change, k: nat)
    requires GoodBody(f, b) && WorldOk(w) && b.ok(w, c) && k <= 3
    ensures Moved(w, b.after(w, c, k))
  {
    BodyAt(f, b, w, c, k);
  }

  /** Entries and issues only grow, and the cursor never moves back, wherever the loop stops. */
  lemma {:induction false} RunMovesOn(f: Facts, b: LoopBody, w: World, changes: seq<Change>, stop: nat)
    requires GoodBody(f, b) && WorldOk(w)
    ensures Moved(w, Run(b, w, changes, stop).world)
    decreases |changes|
  {
    if changes == [] || !b.ok(w, changes[0]) {
      LaterReflexive(w);
    } else if stop < 3 {
      BodyMoves(f, b, w, changes[0], stop);
    } else {
      var w3 := b.after(w, changes[0], 3);
      BodyMoves(f, b, w, changes[0], 3);
      RunMovesOn(f, b, w3, changes[1..], stop - 3);
      MovedTransitive(w, w3, Run(b, w3, changes[1..], stop - 3).world);
    }
  }

  lemma OneMore(f: Facts, w: World, changes: seq<Change>)
    requires changes != [] && Safe(f, w, changes[0]) && AllSafe(f, w, changes[1..])
    ensures AllSafe(f, w, changes)
  {
    assert changes == [changes[0]] + changes[1..];
  }

  lemma StillInWindow(f: Facts, w: World, w': World, changes: seq<Change>)
    requires AllInWindow(w, changes) && Cursor(w') == Cursor(w)
    ensures AllSafe(f, w', changes)
  {
  }

  lemma RestInWindow(w: World, w': World, changes: seq<Change>)
    requires changes != [] && Listing.InOrder(changes) && AllInWindow(w, changes)
    requires Cursor(w') == (if Cursor(w) >= changes[0].mergedAt then Cursor(w) else changes[0].mergedAt)
    ensures AllInWindow(w', changes[1..])
  {
    forall c | c in changes[1..] ensures InWindow(w', c) {
      var i :| 0 < i < |changes| && changes[i] == c;
      assert Listing.NotAfter(changes[0], changes[i]);
      assert changes[i] in changes;
    }
  }

  lemma BodyAt(f: Facts, b: LoopBody, w: World, c: Change, k: nat)
    requires GoodBody(f, b) && WorldOk(w) && b.ok(w, c) && k <= 3
    ensures BodyGood(f, w, c, k, b.after(w, c, k))
  {
    assert BodyGood(f, w, c, k, b.after(w, c, k));
  }

  /** The first change is done, the others go on in the rest of the loop. */
  lemma FirstIsDone(f: Facts, w: World, w3: World, changes: seq<Change>)
    requires changes != [] && Listing.InOrder(changes) && AllInWindow(w, changes) && BodyGood(f, w, changes[0], 3, w3)
    ensures WorldOk(w3) && Handled(f, w3, changes[0]) && AllInWindow(w3, changes[1..]) && Listing.InOrder(changes[1..])
  {
    RestInWindow(w, w3, changes);
  }

  lemma StopsSafely(f: Facts, w: World, w': World, changes: seq<Change>, k: nat)
    requires changes != [] && AllInWindow(w, changes) && BodyGood(f, w, changes[0], k, w') && k < 3
    ensures AllSafe(f, w', changes)
  {
    StillInWindow(f, w, w', changes);
  }

  /** Wherever the loop stops, each of its changes is handled or stays in the next window. */
  lemma {:induction false} RunLosesNothing(f: Facts, b: LoopBody, w: World, changes: seq<Change>, stop: nat)
    requires GoodBody(f, b) && WorldOk(w) && Listing.InOrder(changes) && AllInWindow(w, changes)
    ensures AllSafe(f, Run(b, w, changes, stop).world, changes)
    decreases |changes|
  {
    if changes == [] || !b.ok(w, changes[0]) {
      StillInWindow(f, w, w, changes);
    } else if stop < 3 {
      BodyAt(f, b, w, changes[0], stop);
      StopsSafely(f, w, b.after(w, changes[0], stop), changes, stop);
    } else {
      var w3 := b.after(w, changes[0], 3);
      BodyAt(f, b, w, changes[0], 3);
      FirstIsDone(f, w, w3, changes);
      RunLosesNothing(f, b, w3, changes[1..], stop - 3);
      RunMovesOn(f, b, w3, changes[1..], stop - 3);
      AllDone(f, w3, Run(b, w3, changes[1..], stop - 3).world, changes);
    }
  }

  lemma AllDone(f: Facts, w3: World, w': World, changes: seq<Change>)
    requires changes != [] && Handled(f, w3, changes[0]) && Moved(w3, w') && AllSafe(f, w', changes[1..])
    ensures AllSafe(f, w', changes)
  {
    HandledStays(f, w3, w', changes[0]);
    OneMore(f, w', changes);
  }

  // ---------------------------------------------------------------- over any run of polls

  predicate MergedIn(remote: seq<Listing.Item>, c: Change) {
    exists i :: 0 <= i < |remote| && remote[i].merged && remote[i].change == c
  }

  /** The remote lists the pull request of `c` as merged, with whatever labels it has by now. */
  ghost predicate PullMergedIn(remote: seq<Listing.Item>, c: Change) {
    exists d: Change :: SamePull(c, d) && MergedIn(remote, d)
  }

  /** A merged pull request stays merged; its labels may change at any time. */
  ghost predicate Growing(turns: seq<Turn>) {
    forall i, j, c :: 0 <= i < j < |turns| && PullMergedIn(turns[i].remote, c) ==> PullMergedIn(turns[j].remote, c)
  }

  ghost predicate Orderly(w: World) {
    ValidEntries(w.ledger) && Distinct(w.issues)
  }

  /** The turn lists the change. */
  ghost predicate Shows(w: World, t: Turn, c: Change) {
    c in Listed(Load(w, t.now), t.remote)
  }

  /** A change is listed exactly if it is merged and inside the window. */
  lemma ListedExactly(w: World, remote: seq<Listing.Item>, c: Change)
    ensures c in Listed(w, remote) <==> MergedIn(remote, c) && InWindow(w, c)
  {
    var cutoff := Cursor(w) - OVERLAP;
    Listing.SortMembers(Listing.Window(remote, cutoff), c);
    Listing.WindowMembers(remote, cutoff, c);
    if i :| 0 <= i < |remote| && remote[i].merged && remote[i].change == c && InWindow(w, c) {
      assert Listing.Within(remote[i], cutoff);
    }
  }

  lemma ListedInWindow(w: World, remote: seq<Listing.Item>)
    ensures Listing.InOrder(Listed(w, remote)) && AllInWindow(w, Listed(w, remote))
  {
    Listing.SortCorrect(Listing.Window(remote, Cursor(w) - OVERLAP));
    forall c | c in Listed(w, remote) ensures InWindow(w, c) {
      ListedExactly(w, remote, c);
    }
  }

  /** What a turn does, complete or not: it moves on and loses none of the changes it is shown. */
  ghost predicate GoodTurn(before: World, t: Turn, after: World) {
    && WorldOk(after) && Later(Load(before, t.now), after)
    && forall c :: Shows(before, t, c) ==> Safe(t.facts, after, c)
  }

  lemma PollIsGood(b: LoopBody, before: World, t: Turn)
    requires GoodBody(t.facts, b) && Orderly(before)
    ensures GoodTurn(before, t, PollOnce(b, before, t).world)
  {
    var start := Load(before, t.now);
    ListedInWindow(start, t.remote);
    RunMovesOn(t.facts, b, start, Listed(start, t.remote), t.stop);
    RunLosesNothing(t.facts, b, start, Listed(start, t.remote), t.stop);
  }

  /** The world after the first `k` turns, each taken by `poll`. */
  function PollsTo(poll: (World, Turn) -> World, w: World, turns: seq<Turn>, k: nat): World
    requires k <= |turns|
  {
    if k == 0 then w else poll(PollsTo(poll, w, turns, k - 1), turns[k - 1])
  }

  /** Every poll goes by what the host knows at the time. */
  function Poller(): (World, Turn) -> World {
    (w: World, t: Turn) => PollOnce(BodyOf(t.facts), w, t).world
  }

  ghost predicate AllGood(poll: (World, Turn) -> World) {
    forall w: World, t: Turn {:trigger GoodTurn(w, t, poll(w, t))} :: Orderly(w) ==> GoodTurn(w, t, poll(w, t))
  }

  lemma PollsAreGood()
    ensures AllGood(Poller())
  {
    forall w: World, t: Turn | Orderly(w) ensures GoodTurn(w, t, Poller()(w, t)) {
      BodyOfIsGood(t.facts);
      PollIsGood(BodyOf(t.facts), w, t);
    }
  }

  lemma TurnAt(poll: (World, Turn) -> World, w: World, turns: seq<Turn>, k: nat)
    requires AllGood(poll) && k < |turns| && Orderly(PollsTo(poll, w, turns, k))
    ensures GoodTurn(PollsTo(poll, w, turns, k), turns[k], PollsTo(poll, w, turns, k + 1))
    ensures Orderly(PollsTo(poll, w, turns, k + 1)) && PollsTo(poll, w, turns, k + 1).ledger.cursor.Some?
  {
    var before := PollsTo(poll, w, turns, k);
    assert GoodTurn(before, turns[k], poll(before, turns[k]));
  }

  lemma {:induction false} StaysOrderly(poll: (World, Turn) -> World, w: World, turns: seq<Turn>, k: nat)
    requires AllGood(poll) && Orderly(w) && k <= |turns|
    ensures Orderly(PollsTo(poll, w, turns, k))
    ensures k > 0 ==> PollsTo(poll, w, turns, k).ledger.cursor.Some?
    decreases k
  {
    if k > 0 {
      StaysOrderly(poll, w, turns, k - 1);
      TurnAt(poll, w, turns, k - 1);
    }
  }

  /**
   Turn `j`, one of the first `n`, was shown the pull request of `c`, and what it was shown is
   handled after `n` turns.
   */
  ghost predicate HandledFrom(poll: (World, Turn) -> World, w: World, turns: seq<Turn>, n: nat, c: Change, j: nat,
    d: Change)
    requires n <= |turns|
  {
    && j < n && SamePull(c, d) && Shows(PollsTo(poll, w, turns, j), turns[j], d)
    && Handled(turns[j].facts, PollsTo(poll, w, turns, n), d)
  }

  /** The pull request of `c` is handled as some poll was shown it, or the next poll lists it. */
  ghost predicate PullSafe(poll: (World, Turn) -> World, w: World, turns: seq<Turn>, n: nat, c: Change)
    requires n <= |turns|
  {
    InWindow(PollsTo(poll, w, turns, n), c) || exists j, d :: HandledFrom(poll, w, turns, n, c, j, d)
  }

  lemma ShownIsSafe(poll: (World, Turn) -> World, w: World, turns: seq<Turn>, k: nat, c: Change, d: Change)
    requires AllGood(poll) && Orderly(w) && k < |turns| && SamePull(c, d)
    requires Shows(PollsTo(poll, w, turns, k), turns[k], d)
    ensures PullSafe(poll, w, turns, k + 1, c)
  {
    StaysOrderly(poll, w, turns, k);
    TurnAt(poll, w, turns, k);
    if Handled(turns[k].facts, PollsTo(poll, w, turns, k + 1), d) {
      assert HandledFrom(poll, w, turns, k + 1, c, k, d);
    }
  }

  lemma HandledOn(poll: (World, Turn) -> World, w: World, turns: seq<Turn>, k: nat, c: Change, j: nat, d: Change)
    requires AllGood(poll) && Orderly(w) && 0 < k < |turns| && HandledFrom(poll, w, turns, k, c, j, d)
    ensures HandledFrom(poll, w, turns, k + 1, c, j, d)
  {
    StaysOrderly(poll, w, turns, k);
    TurnAt(poll, w, turns, k);
    HandledStays(turns[j].facts, PollsTo(poll, w, turns, k), PollsTo(poll, w, turns, k + 1), d);
  }

  /** A pull request that is safe stays safe while it is merged, even if its labels have changed. */
  lemma SafeStep(poll: (World, Turn) -> World, w: World, turns: seq<Turn>, k: nat, c: Change)
    requires AllGood(poll) && Orderly(w) && 0 < k < |turns| && PullMergedIn(turns[k].remote, c)
    requires PullSafe(poll, w, turns, k, c)
    ensures PullSafe(poll, w, turns, k + 1, c)
  {
    var before := PollsTo(poll, w, turns, k);
    StaysOrderly(poll, w, turns, k);
    if InWindow(before, c) {
      var d :| SamePull(c, d) && MergedIn(turns[k].remote, d);
      ListedExactly(before, turns[k].remote, d);
      assert Shows(before, turns[k], d);
      ShownIsSafe(poll, w, turns, k, c, d);
    } else {
      var j, d :| HandledFrom(poll, w, turns, k, c, j, d);
      HandledOn(poll, w, turns, k, c, j, d);
    }
  }

  lemma CursorStep(poll: (World, Turn) -> World, w: World, turns: seq<Turn>, k: nat)
    requires AllGood(poll) && Orderly(w) && 0 < k < |turns|
    ensures Cursor(PollsTo(poll, w, turns, k)) <= Cursor(PollsTo(poll, w, turns, k + 1))
  {
    StaysOrderly(poll, w, turns, k);
    TurnAt(poll, w, turns, k);
  }

  /**
   No listed change is lost: stop each poll wherever you like, let labels and what the host says of them
   change between the polls, and every pull request any poll was shown is handled, as that poll or
   another one was shown it, or is listed again by the next poll.
   */
  lemma NoListedChangeIsLost(w: World, turns: seq<Turn>, i: nat, n: nat, c: Change)
    requires Orderly(w) && Growing(turns) && i < n <= |turns|
    requires Shows(PollsTo(Poller(), w, turns, i), turns[i], c)
    ensures PullSafe(Poller(), w, turns, n, c)
  {
    PollsAreGood();
    SafeAlong(Poller(), w, turns, i, n, c);
  }

  lemma ShownIsMerged(poll: (World, Turn) -> World, w: World, turns: seq<Turn>, i: nat, c: Change)
    requires i < |turns| && Shows(PollsTo(poll, w, turns, i), turns[i], c)
    ensures PullMergedIn(turns[i].remote, c)
  {
    ListedExactly(Load(PollsTo(poll, w, turns, i), turns[i].now), turns[i].remote, c);
    assert SamePull(c, c);
  }

  lemma StillMerged(turns: seq<Turn>, i: nat, j: nat, c: Change)
    requires Growing(turns) && i <= j < |turns| && PullMergedIn(turns[i].remote, c)
    ensures PullMergedIn(turns[j].remote, c)
  {
  }

  lemma {:induction false} SafeAlong(poll: (World, Turn) -> World, w: World, turns: seq<Turn>, i: nat, n: nat,
    c: Change)
    requires AllGood(poll) && Orderly(w) && Growing(turns) && i < n <= |turns|
    requires Shows(PollsTo(poll, w, turns, i), turns[i], c)
    ensures PullSafe(poll, w, turns, n, c)
    decreases n
  {
    if i == n - 1 {
      assert SamePull(c, c);
      ShownIsSafe(poll, w, turns, i, c, c);
    } else {
      SafeAlong(poll, w, turns, i, n - 1, c);
      ShownIsMerged(poll, w, turns, i, c);
      StillMerged(turns, i, n - 1, c);
      SafeStep(poll, w, turns, n - 1, c);
    }
  }

  /** The cursor of a later poll is never earlier. */
  lemma CursorNeverMovesBack(w: World, turns: seq<Turn>, i: nat, n: nat)
    requires Orderly(w) && 0 < i <= n <= |turns|
    ensures Cursor(PollsTo(Poller(), w, turns, i)) <= Cursor(PollsTo(Poller(), w, turns, n))
  {
    PollsAreGood();
    CursorAlong(Poller(), w, turns, i, n);
  }

  lemma {:induction false} CursorAlong(poll: (World, Turn) -> World, w: World, turns: seq<Turn>, i: nat, n: nat)
    requires AllGood(poll) && Orderly(w) && 0 < i <= n <= |turns|
    ensures Cursor(PollsTo(poll, w, turns, i)) <= Cursor(PollsTo(poll, w, turns, n))
    decreases n
  {
    if i < n {
      CursorAlong(poll, w, turns, i, n - 1);
      CursorStep(poll, w, turns, n - 1);
    }
  }

  /** At most one tracking issue per change, over any run of polls. */
  lemma OneTrackingIssue(w: World, turns: seq<Turn>, i: nat, j: nat)
    requires Orderly(w)
    requires var issues := PollsTo(Poller(), w, turns, |turns|).issues;
      i < |issues| && j < |issues| && issues[i] == issues[j]
    ensures i == j
  {
    PollsAreGood();
    StaysOrderly(Poller(), w, turns, |turns|);
  }

  // ---------------------------------------------------------------- requests

  lemma RunFinishes(b: LoopBody, w: World, changes: seq<Change>, stop: nat)
    requires changes != [] && Run(b, w, changes, stop).finished
    ensures b.ok(w, changes[0]) && stop >= 3
    ensures var rest := Run(b, b.after(w, changes[0], 3), changes[1..], stop - 3);
      rest.finished && Run(b, w, changes, stop) == Progress(rest.world, b.ask(w, changes[0]) + rest.requests, true)
  {
  }

  /** What the body asks for: every target that is still open after it. */
  ghost predicate AsksAll(f: Facts, b: LoopBody) {
    forall w: World, c: Change, t: string :: WorldOk(w) && b.ok(w, c) && Open(f, b.after(w, c, 3).ledger, c, t) ==>
      RequestFor(c, t, f.resolve(c).actors) in b.ask(w, c)
  }

  lemma BodyAsksAll(f: Facts)
    ensures AsksAll(f, BodyOf(f))
  {
    forall w: World, c: Change, t: string
      | WorldOk(w) && BodyOf(f).ok(w, c) && Open(f, BodyOf(f).after(w, c, 3).ledger, c, t)
      ensures RequestFor(c, t, f.resolve(c).actors) in BodyOf(f).ask(w, c)
    {
      HeadRequests(f, w, c, t);
    }
  }

  /** A loop that finishes asks for every selected target that is still undecided, in the resolved actor's name. */
  lemma {:induction false} FinishedAsksAll(
      f: Facts, b: LoopBody, w: World, changes: seq<Change>, stop: nat, c: Change, t: string)
    requires GoodBody(f, b) && AsksAll(f, b) && WorldOk(w)
    requires Run(b, w, changes, stop).finished && c in changes && Open(f, Run(b, w, changes, stop).world.ledger, c, t)
    ensures RequestFor(c, t, f.resolve(c).actors) in Run(b, w, changes, stop).requests
    decreases |changes|
  {
    RunFinishes(b, w, changes, stop);
    var w3 := b.after(w, changes[0], 3);
    assert BodyGood(f, w, changes[0], 3, w3);
    if c == changes[0] {
      RunMovesOn(f, b, w3, changes[1..], stop - 3);
      UndecidedEarlier(w3, Run(b, w3, changes[1..], stop - 3).world, c, t);
    } else {
      FinishedAsksAll(f, b, w3, changes[1..], stop - 3, c, t);
    }
  }

  lemma FinishedRequestsAll(f: Facts, w: World, changes: seq<Change>, stop: nat, c: Change, t: string)
    requires WorldOk(w) && Run(BodyOf(f), w, changes, stop).finished && c in changes
    requires Open(f, Run(BodyOf(f), w, changes, stop).world.ledger, c, t)
    ensures RequestFor(c, t, f.resolve(c).actors) in Run(BodyOf(f), w, changes, stop).requests
  {
    BodyOfIsGood(f);
    BodyAsksAll(f);
    FinishedAsksAll(f, BodyOf(f), w, changes, stop, c, t);
  }

  ghost predicate AsksAuthorized(m: Manifest, b: LoopBody) {
    forall w: World, c: Change, q: Request :: q in b.ask(w, c) ==> Authorized(m, q.actor) && IsPrSdk(m, q.target)
  }

  lemma {:induction false} OnlyAuthorized(m: Manifest, b: LoopBody, w: World, changes: seq<Change>, stop: nat,
    q: Request)
    requires AsksAuthorized(m, b) && q in Run(b, w, changes, stop).requests
    ensures Authorized(m, q.actor) && IsPrSdk(m, q.target)
    decreases |changes|
  {
    if q !in b.ask(w, changes[0]) {
      OnlyAuthorized(m, b, b.after(w, changes[0], 3), changes[1..], stop - 3, q);
    }
  }

  lemma BodyAsksAuthorized(f: Facts, m: Manifest, w: World, c: Change, q: Request)
    requires Sound(f, m) && q in BodyOf(f).ask(w, c)
    ensures Authorized(m, q.actor) && IsPrSdk(m, q.target)
  {
    HeadIsAuthorized(m, After(f, w, c, 2), c, f.resolve(c), q);
  }

  lemma BodiesAskAuthorized(f: Facts, m: Manifest)
    requires Sound(f, m)
    ensures AsksAuthorized(m, BodyOf(f))
  {
    forall w: World, c: Change, q: Request | q in BodyOf(f).ask(w, c)
      ensures Authorized(m, q.actor) && IsPrSdk(m, q.target)
    {
      BodyAsksAuthorized(f, m, w, c, q);
    }
  }

  /** Nobody but a maintainer asks: every request of a poll names an authorised actor and a PR-enabled SDK. */
  lemma RequestsAreAuthorized(f: Facts, m: Manifest, w: World, changes: seq<Change>, stop: nat, q: Request)
    requires Sound(f, m) && q in Run(BodyOf(f), w, changes, stop).requests
    ensures Authorized(m, q.actor) && IsPrSdk(m, q.target)
  {
    BodiesAskAuthorized(f, m);
    OnlyAuthorized(m, BodyOf(f), w, changes, stop, q);
  }

  // ---------------------------------------------------------------- in place

  /** How a run shows outside: the world it leaves, and its requests if it finished. */
  ghost predicate Returns(p: Progress, w: World, r: Result<seq<Request>>) {
    w == p.world && r.Success? == p.finished && (r.Success? ==> r.value == p.requests)
  }

  /** A run in front of another: the same end, more requests. */
  function Before(asked: seq<Request>, p: Progress): Progress {
    Progress(p.world, asked + p.requests, p.finished)
  }

  lemma BeforeBoth(xs: seq<Request>, ys: seq<Request>, p: Progress)
    ensures Before(xs, Before(ys, p)) == Before(xs + ys, p)
  {
    assert xs + (ys + p.requests) == xs + ys + p.requests;
  }

  lemma RunAt(b: LoopBody, w: World, changes: seq<Change>, i: nat, budget: nat)
    requires i < |changes|
    ensures !b.ok(w, changes[i]) ==> Run(b, w, changes[i..], budget) == Progress(w, [], false)
    ensures b.ok(w, changes[i]) && budget < 3 ==>
      Run(b, w, changes[i..], budget) == Progress(b.after(w, changes[i], budget), [], false)
    ensures b.ok(w, changes[i]) && budget >= 3 ==>
      Run(b, w, changes[i..], budget)
      == Before(b.ask(w, changes[i]), Run(b, b.after(w, changes[i], 3), changes[i + 1..], budget - 3))
  {
    assert changes[i..][1..] == changes[i + 1..];
  }

  lemma PollOnceIs(b: LoopBody, w: World, t: Turn, changes: seq<Change>, w': World, r: Result<seq<Request>>)
    requires changes == Listed(Load(w, t.now), t.remote) && Returns(Run(b, Load(w, t.now), changes, t.stop), w', r)
    ensures Returns(PollOnce(b, w, t), w', r)
  {
  }

  /** The loop's view `b` of the body for the facts `f`. */
  ghost predicate Follows(f: Facts, b: LoopBody) {
    && (forall w: World, c: Change {:trigger b.ok(w, c), Snapshots(f, w, c)} :: b.ok(w, c) == Snapshots(f, w, c))
    && (forall w: World, c: Change, k: nat {:trigger b.after(w, c, k), After(f, w, c, k)} ::
          Snapshots(f, w, c) ==> b.after(w, c, k) == After(f, w, c, k))
    && (forall w: World, c: Change {:trigger b.ask(w, c), After(f, w, c, 2)} ::
          Snapshots(f, w, c) ==> b.ask(w, c) == Propagations(After(f, w, c, 2), c, f.resolve(c)))
  }

  lemma BodyFollows(f: Facts)
    ensures Follows(f, BodyOf(f))
  {
  }

  method TakeBody(host: Host, f: Facts, b: LoopBody, c: Change, budget: nat) returns (asked: seq<Request>)
    requires Follows(f, b) && b.ok(host.world, c)
    modifies host
    ensures host.world == b.after(old(host.world), c, if budget < 3 then budget else 3)
    ensures budget >= 3 ==> asked == b.ask(old(host.world), c)
  {
    assert Snapshots(f, host.world, c);
    ghost var w, k := host.world, if budget < 3 then budget else 3;
    asked := host.Body(f, c, budget);
    assert host.world == After(f, w, c, k);
    assert b.ask(w, c) == Propagations(After(f, w, c, 2), c, f.resolve(c));
  }

  /** The loop over the listed changes. */
  method ProcessAll(host: Host, f: Facts, b: LoopBody, changes: seq<Change>, stop: nat)
    returns (r: Result<seq<Request>>)
    requires Follows(f, b)
    modifies host
    ensures Returns(Run(b, old(host.world), changes, stop), host.world, r)
  {
    var budget := stop;
    var propagations: seq<Request> := [];
    ghost var p := Run(b, host.world, changes, stop);
    assert changes[0..] == changes;
    for i := 0 to |changes|
      invariant p == Run(b, host.world, changes[i..], budget)
      invariant Before(propagations, p) == Run(b, old(host.world), changes, stop)
    {
      var c := changes[i];
      RunAt(b, host.world, changes, i, budget);
      if !b.ok(host.world, c) {
        return Failure("merge-time label conflict");
      }
      var asked := TakeBody(host, f, b, c, budget);
      if budget < 3 {
        return Failure("stopped");
      }
      p := Run(b, host.world, changes[i + 1..], budget - 3);
      BeforeBoth(propagations, asked, p);
      propagations := propagations + asked;
      budget := budget - 3;
    }
    assert changes[|changes|..] == [];
    return Success(propagations);
  }

  /** `poll`, stopped when `stop` statements that change state have been executed. */
  method PollRepository(host: Host, t: Turn) returns (r: Result<seq<Request>>)
    requires Listing.ByUpdate(t.remote)
    modifies host
    ensures Returns(PollOnce(BodyOf(t.facts), old(host.world), t), host.world, r)
  {
    ghost var before := host.world;
    ghost var loaded := Load(before, t.now);
    host.world := Load(host.world, t.now);
    var changes := Listing.MergedChanges(t.remote, Cursor(host.world) - OVERLAP);
    assert changes == Listed(loaded, t.remote);
    var body := BodyOf(t.facts);
    BodyFollows(t.facts);
    r := ProcessAll(host, t.facts, body, changes, t.stop);
    assert Returns(Run(body, loaded, changes, t.stop), host.world, r);
    PollOnceIs(body, before, t, changes, host.world, r);
  }
}
