/** What publication guarantees over any number of runs, crashes and retries. */
module PublicationTheorems {
  import opened Wrappers
  import opened GitGraph
  import opened PublicationProtocol

  /** Before the first run: a target repository without the stable branch. */
  ghost predicate Untouched(h: Hub) {
    && WellFormed(h.commits) && (forall c: Id :: c < |h.commits| ==> h.commits[c].key == "")
    && h == Hub(h.commits, None, [], [], [], {}, None)
  }

  ghost predicate Reachable(h: Hub) {
    exists h0: Hub, actions: seq<Action> :: Untouched(h0) && h == Exec(h0, actions)
  }

  lemma UntouchedInv(h: Hub)
    requires Untouched(h)
    ensures Inv(h)
  {
    forall x: Id, c: Id | x < |h.commits| && c != x && IsAncestor(h.commits, c, x) ensures Public(h, c) {
      AncestorIsOlder(h.commits, c, x);
    }
  }

  lemma ReachableInv(h: Hub)
    requires Reachable(h)
    ensures Inv(h)
  {
    var h0: Hub, actions: seq<Action> :| Untouched(h0) && h == Exec(h0, actions);
    UntouchedInv(h0);
    ExecKeepsInv(h0, actions);
  }

  /** One pull request per stable branch. */
  lemma OnePull(h: Hub)
    requires Reachable(h)
    ensures |h.pulls| <= 1
  {
    ReachableInv(h);
  }

  /**
   At most one commit per request, its key and recorded head: in all that was ever pushed, and in
   the branch's history.
   */
  lemma OneCommitPerRequest(h: Hub, c: Id, d: Id, n: nat)
    requires Reachable(h) && Answers(h, c, n) && Answers(h, d, n)
    requires (c in h.landed && d in h.landed)
      || (h.branch.Some? && IsAncestor(h.commits, c, h.branch.value) && IsAncestor(h.commits, d, h.branch.value))
    ensures c == d
  {
    ReachableInv(h);
    if c !in h.landed || d !in h.landed {
      BranchIsPublic(h, c);
      BranchIsPublic(h, d);
    }
    assert SameKey(h, c, d);
  }

  lemma BranchIsPublic(h: Hub, c: Id)
    requires Inv(h) && h.branch.Some? && IsAncestor(h.commits, c, h.branch.value)
    ensures Public(h, c)
  {
    assert Public(h, h.branch.value);
  }

  /** Some request, made when `c` had landed, asked for `d`, and every request for `d` was made then. */
  ghost predicate AskedAgain(h: Hub, c: Id, d: Id) {
    && (exists n: nat :: Answers(h, d, n) && c in h.asked[n].landed)
    && (forall n: nat :: Answers(h, d, n) ==> c in h.asked[n].landed)
  }

  /**
   Two commits of one key were pushed only if the key was asked for again: one of them was made for
   requests that all came after the other had been pushed.
   */
  lemma TwoCommitsNeedTwoAsks(h: Hub, c: Id, d: Id)
    requires Reachable(h) && c in h.landed && d in h.landed && c != d
    requires c < |h.commits| && d < |h.commits| && h.commits[c].key == h.commits[d].key != ""
    ensures AskedAgain(h, c, d) || AskedAgain(h, d, c)
  {
    ReachableInv(h);
    assert SameKey(h, c, d);
    assert IsAnswer(h, c) && IsAnswer(h, d);
    var n: nat :| Answers(h, c, n);
    var m: nat :| Answers(h, d, m);
    if AskedAfter(h, c, d) {
      assert Answers(h, d, m) && c in h.asked[m].landed;
    } else {
      assert Answers(h, c, n) && d in h.asked[n].landed;
    }
  }

  /**
   At most one summary comment per key and pull request, however often it is asked for, and it
   reports a pushed commit.
   */
  lemma OneCommentPerKey(h: Hub, i: nat)
    requires Reachable(h) && i < |h.comments| && h.comments[i].postedFor.Some?
    ensures forall j :: 0 <= j < |h.comments| && j != i && h.comments[j].pull == h.comments[i].pull ==>
      h.comments[j].postedFor != h.comments[i].postedFor
    ensures Reports(h, h.comments[i].postedFor.value, h.comments[i].summary)
  {
    ReachableInv(h);
  }

  /** Every commit in the branch's history stays in it. */
  ghost predicate Keeps(h: Hub, h': Hub)
    requires h.branch.Some? && h'.branch.Some?
  {
    forall c: Id :: IsAncestor(h.commits, c, h.branch.value) ==> IsAncestor(h'.commits, c, h'.branch.value)
  }

  /**
   A statement of a revision run leaves the branch alone or moves it from the recorded head to the
   verified commit made on it; no commit, whoever made it, leaves the branch's history.
   */
  lemma RevisionOnlyExtends(h: Hub, ok: bool)
    requires Reachable(h) && h.run.Some? && h.run.value.kind.Revision?
    ensures var h' := Apply(h, Advance(ok)); var run := h.run.value;
      && (h'.branch != h.branch ==> h.branch == Some(run.kind.head) && h'.branch == Some(run.local)
                                    && h.commits[run.local].parents == [run.kind.head])
      && (h.branch.Some? ==> h'.branch.Some? && Keeps(h, h'))
  {
    ReachableInv(h);
    var h' := Apply(h, Advance(ok));
    var run := h.run.value;
    if h'.branch != h.branch {
      RevisionLandsOnHead(h);
      assert IsAncestor(h.commits, run.kind.head, h.commits[run.local].parents[0]);
      assert IsAncestor(h.commits, run.kind.head, run.local);
      forall c: Id | IsAncestor(h.commits, c, h.branch.value) ensures IsAncestor(h'.commits, c, h'.branch.value) {
        AncestorTransitive(h.commits, c, run.kind.head, run.local);
      }
    }
  }

  /** The next statement of the run is a push that lands. */
  predicate Lands(h: Hub, ok: bool) {
    && h.run.Some? && h.run.value.pc.Fetched?
    && Apply(h, Advance(ok)).run.Some? && Apply(h, Advance(ok)).run.value.pc.Pushed?
  }

  /** What the new commit of a first publication was made from is the base and its history. */
  lemma AncestorsOfInitial(h: Hub, c: Id)
    requires Inv(h) && h.run.Some? && h.run.value.kind.Initial?
    ensures IsAncestor(h.commits, c, h.run.value.local)
      <==> c == h.run.value.local || IsAncestor(h.commits, c, h.run.value.kind.base)
  {
    var local := h.run.value.local;
    assert h.commits[local].parents[0] == h.run.value.kind.base;
    if IsAncestor(h.commits, c, h.run.value.kind.base) {
      assert IsAncestor(h.commits, c, h.commits[local].parents[0]);
    }
  }

  /**
   A first publication does not promise that: when its push lands on an existing branch, the old
   history survives exactly when the old head is in the history of the base the run started from.
   A push that found no branch is not forced and always keeps it.
   */
  lemma InitialKeepsHistoryExactlyWhen(h: Hub, ok: bool)
    requires Reachable(h) && h.branch.Some? && Lands(h, ok) && h.run.value.kind.Initial?
    ensures var h' := Apply(h, Advance(ok)); var run := h.run.value;
      && h'.branch == Some(run.local)
      && (Keeps(h, h') <==> IsAncestor(h.commits, h.branch.value, run.kind.base))
      && (run.pc.remote.None? ==> Keeps(h, h'))
  {
    assert Inv(h) by { ReachableInv(h); }
    var local, head := h.run.value.local, h.branch.value;
    AncestorsOfInitial(h, head);
    if IsAncestor(h.commits, head, local) {
      forall c: Id | IsAncestor(h.commits, c, head) ensures IsAncestor(h.commits, c, local) {
        AncestorTransitive(h.commits, c, head, local);
      }
    } else {
      assert IsAncestor(h.commits, head, head);
    }
  }

  /** A run written out state by state. */
  lemma {:induction false} Unfold(h: Hub, actions: seq<Action>, states: seq<Hub>)
    requires |states| == |actions| > 0 && Apply(h, actions[0]) == states[0]
    requires forall i :: 0 < i < |actions| ==> Apply(states[i - 1], actions[i]) == states[i]
    ensures Exec(h, actions) == states[|states| - 1]
    decreases |actions|
  {
    if |actions| > 1 {
      Unfold(states[0], actions[1..], states[1..]);
    } else {
      assert Exec(h, actions) == Exec(states[0], []);
    }
  }

  lemma {:induction false} ExecAppend(h: Hub, xs: seq<Action>, ys: seq<Action>)
    ensures Exec(h, xs + ys) == Exec(Exec(h, xs), ys)
    decreases |xs|
  {
    if xs == [] {
      assert xs + ys == ys;
    } else {
      assert (xs + ys)[1..] == xs[1..] + ys;
      ExecAppend(Apply(h, xs[0]), xs[1..], ys);
    }
  }

  /** Before any pull request, with a first publication of base 0 at `pc`. */
  function Early(commits: seq<Commit>, branch: Option<Id>, landed: set<Id>, local: Id, pc: Pc): Hub {
    Hub(commits, branch, [], [], [], landed, Some(Run("k", Initial(0), local, pc)))
  }

  const ROOT := Commit([], "", "")
  const FIRST := Commit([0], "", "")

  const PUBLISH := [StartInitial("k", 0), Advance(true), Advance(true), Advance(true), Advance(true)]
  const AGAIN := [Crash, HumanCommit([], "fix"), StartInitial("k", 0), Advance(true), Advance(true), Advance(true)]

  lemma FirstLands()
    ensures Exec(Hub([ROOT], None, [], [], [], {}, None), PUBLISH)
         == Early([ROOT, FIRST], Some(1), {1}, 1, Pushed(None, 1))
  {
    var g := [ROOT, FIRST];
    Unfold(Hub([ROOT], None, [], [], [], {}, None), PUBLISH,
           [Early(g, None, {}, 1, Begin),
            Early(g, None, {}, 1, Found(None)),
            Early(g, None, {}, 1, Checked(None)),
            Early(g, None, {}, 1, Fetched(None, None)),
            Early(g, Some(1), {1}, 1, Pushed(None, 1))]);
  }

  lemma SecondIsAboutToPush()
    ensures Exec(Early([ROOT, FIRST], Some(1), {1}, 1, Pushed(None, 1)), AGAIN)
         == Early([ROOT, FIRST, Commit([1], "", "fix"), FIRST], Some(2), {1}, 3, Fetched(None, Some(2)))
  {
    var g, human := [ROOT, FIRST], [ROOT, FIRST, Commit([1], "", "fix")];
    var again := human + [FIRST];
    var none: seq<Id> := [];
    assert [1] + none == [1];
    Unfold(Early(g, Some(1), {1}, 1, Pushed(None, 1)), AGAIN,
           [Hub(g, Some(1), [], [], [], {1}, None),
            Hub(human, Some(2), [], [], [], {1}, None),
            Early(again, Some(2), {1}, 3, Begin),
            Early(again, Some(2), {1}, 3, Found(None)),
            Early(again, Some(2), {1}, 3, Checked(None)),
            Early(again, Some(2), {1}, 3, Fetched(None, Some(2)))]);
  }

  /** Somebody's commit 2 is in the branch's history before the push of commit 3, and not afterwards. */
  lemma SecondDrops(h: Hub)
    requires h == Early([ROOT, FIRST, Commit([1], "", "fix"), FIRST], Some(2), {1}, 3, Fetched(None, Some(2)))
    ensures Lands(h, true) && Apply(h, Advance(true)).branch == Some(3) && Apply(h, Advance(true)).commits == h.commits
    ensures IsAncestor(h.commits, 2, 2) && !IsAncestor(h.commits, 2, 3)
  {
    if IsAncestor(h.commits, 2, 3) {
      AncestorIsOlder(h.commits, 2, 0);
    }
  }

  /**
   It happens: a first publication crashes after its push, somebody commits on the new branch, and
   the retry on the same base moves the branch so that this commit is no longer in its history.
   */
  lemma RetryDropsHistory() returns (h: Hub, c: Id)
    ensures Reachable(h) && Lands(h, true) && h.run.value.kind.Initial? && h.branch.Some?
    ensures c !in h.landed && IsAncestor(h.commits, c, h.branch.value)
    ensures var h' := Apply(h, Advance(true)); h'.branch.Some? && !IsAncestor(h'.commits, c, h'.branch.value)
  {
    var h0 := Hub([ROOT], None, [], [], [], {}, None);
    FirstLands();
    SecondIsAboutToPush();
    ExecAppend(h0, PUBLISH, AGAIN);
    h, c := Exec(h0, PUBLISH + AGAIN), 2;
    assert Reachable(h) by {
      assert Untouched(h0);
    }
    SecondDrops(h);
  }

  /** The summary comment of a run for `key` is on the pull request. */
  ghost predicate Posted(h: Hub, pull: nat, key: string) {
    exists i :: 0 <= i < |h.comments| && h.comments[i].pull == pull && h.comments[i].postedFor == Some(key)
  }

  /** Somebody else's comment there contains the marker of `key`. */
  ghost predicate MentionedByOthers(h: Hub, pull: nat, key: string) {
    exists i :: 0 <= i < |h.comments| && h.comments[i].pull == pull && h.comments[i].postedFor != Some(key)
      && key in h.comments[i].mentions
  }

  /**
   A revision run that reports success has a commit for its key pushed, and its summary on the pull
   request, unless somebody else's comment there contains the key's marker.
   */
  lemma DoneIsPublished(h: Hub)
    requires Reachable(h) && h.run.Some? && h.run.value.kind.Revision? && h.run.value.pc.Done?
    ensures h.run.value.pc.pull < |h.pulls| && HasLanded(h, h.run.value.key)
    ensures Posted(h, h.run.value.pc.pull, h.run.value.key)
      || MentionedByOthers(h, h.run.value.pc.pull, h.run.value.key)
  {
    ReachableInv(h);
  }

  // ---------------------------------------------------------------- retrying

  /** `n` statements that all succeed, with nobody in between. */
  function Advances(h: Hub, n: nat): Hub
    decreases n
  {
    if n == 0 then h else Advances(Apply(h, Advance(true)), n - 1)
  }

  lemma {:induction false} DoneStays(h: Hub, n: nat)
    requires h.run.Some? && h.run.value.pc.Done?
    ensures Advances(h, n) == h
  {
    if n > 0 {
      DoneStays(h, n - 1);
    }
  }

  /** The branch exists and its pull request is open. */
  predicate CanRevise(h: Hub) {
    h.branch.Some? && h.pulls != [] && h.pulls[0].state == Open
  }

  /** The hub during a retry of request `n`, before its push. */
  function Retried(h: Hub, n: nat, summary: string, pulls: seq<Pull>, pc: Pc): Hub
    requires n < |h.asked|
  {
    h.(commits := h.commits + [Commit([h.asked[n].head], h.asked[n].key, summary)], pulls := pulls,
       run := Some(Run(h.asked[n].key, Revision(0, h.asked[n].head), |h.commits|, pc)))
  }

  /** The pull request of a retried run is found. */
  lemma RetryFinds(h: Hub, n: nat, summary: string)
    requires Inv(h) && n < |h.asked| && CanRevise(h)
    ensures var found := Retried(h, n, summary, h.pulls, Found(Some(Seen(0, h.pulls[0]))));
      && Inv(found)
      && Advances(Apply(h, StartRevision(n, 0, summary)), 8) == Advances(found, 7)
  {
    var started := Retried(h, n, summary, h.pulls, Begin);
    assert Apply(h, StartRevision(n, 0, summary)) == started;
    StepKeepsInv(h, StartRevision(n, 0, summary));
    StepKeepsInv(started, Advance(true));
  }

  /** It is put back into draft, and the branch is looked at. */
  lemma RetryReads(h: Hub, seen: Seen)
    requires Inv(h) && h.run.Some? && h.run.value.pc == Found(Some(seen)) && h.run.value.kind.Revision? && CanRevise(h)
    requires seen == Seen(0, h.pulls[0]) && h.run.value.kind.pull == 0 && h.commits[h.run.value.local].summary != ""
    ensures var h' := At(h.(pulls := h.pulls[0 := h.pulls[0].(draft := true)]), Fetched(Some(seen), h.branch));
      Inv(h') && Advances(h, 7) == Advances(h', 5)
  {
    var checked := Apply(h, Advance(true));
    StepKeepsInv(h, Advance(true));
    StepKeepsInv(checked, Advance(true));
    assert checked == At(h.(pulls := h.pulls[0 := h.pulls[0].(draft := true)]), Checked(Some(seen))) by {
      assert h.pulls[0].draft ==> h.pulls == h.pulls[0 := h.pulls[0].(draft := true)];
    }
    assert Advances(h, 7) == Advances(checked, 6) == Advances(Apply(checked, Advance(true)), 5);
  }

  /** So a retry comes to look at the branch, with nothing else changed. */
  lemma Reopens(h: Hub, n: nat, summary: string) returns (reopened: Hub)
    requires Inv(h) && n < |h.asked| && summary != "" && CanRevise(h)
    ensures Advances(Apply(h, StartRevision(n, 0, summary)), 8) == Advances(reopened, 5)
    ensures Inv(reopened) && CanRevise(reopened)
    ensures reopened == Retried(h, n, summary, reopened.pulls, Fetched(Some(Seen(0, h.pulls[0])), h.branch))
  {
    RetryFinds(h, n, summary);
    var found := Retried(h, n, summary, h.pulls, Found(Some(Seen(0, h.pulls[0]))));
    RetryReads(found, Seen(0, h.pulls[0]));
    reopened := At(found.(pulls := h.pulls[0 := h.pulls[0].(draft := true)]),
      Fetched(Some(Seen(0, h.pulls[0])), h.branch));
  }

  /** The comments after a run that reported `summary` for `key`: one more, unless one has the key's marker. */
  function Reported(comments: seq<Comment>, key: string, summary: string): seq<Comment> {
    if Mentioned(comments, 0, key) then comments else comments + [Comment(0, Some(key), {key}, summary)]
  }

  /**
   A run is done that found the hub as `h`, reported commit `source` and left the branch at
   `branch` and `landed` pushed; nothing else changed.
   */
  ghost predicate Finished(h: Hub, h': Hub, source: Id, branch: Option<Id>, landed: set<Id>) {
    && h'.run.Some? && h'.run.value.pc == Done(0) && source < |h'.commits|
    && h'.comments == Reported(h.comments, h'.run.value.key, h'.commits[source].summary)
    && h'.branch == branch && h'.landed == landed && h'.asked == h.asked && CanRevise(h')
  }

  /** After the push, the run comments unless somebody already has, and is done. */
  lemma CommentsAndFinishes(h: Hub, source: Id)
    requires Inv(h) && h.run.Some? && h.run.value.kind.Revision? && source < |h.commits| && CanRevise(h)
    requires h.run.value.pc.Pushed? && h.run.value.pc.existing.Some?
    requires h.run.value.pc.existing.value.number == 0 && h.run.value.pc.source == source
    ensures Finished(h, Advances(h, 4), source, h.branch, h.landed)
    ensures Advances(h, 4).commits == h.commits && Advances(h, 4).run.value.key == h.run.value.key
  {
    var h1 := Apply(h, Advance(true));
    assert Advances(h, 4) == Advances(h1, 3) == Advances(Apply(h1, Advance(true)), 2);
    ReportsOnce(h1, source);
    DoneStays(Advances(h1, 2), 1);
    AdvancesOnce(h1);
  }

  lemma AdvancesOnce(h: Hub)
    ensures Advances(h, 3) == Advances(Advances(h, 2), 1)
  {
    var h1 := Apply(h, Advance(true));
    assert Advances(h, 3) == Advances(h1, 2) && Advances(h, 2) == Advances(h1, 1);
    assert Advances(h1, 2) == Advances(Apply(h1, Advance(true)), 1);
  }

  /**
   The last two statements of a revision run, with nobody in between: its own summary is posted
   exactly when it was before or nobody's comment there contains the key's marker.
   */
  lemma ReportsOnce(h: Hub, source: Id)
    requires h.run.Some? && h.run.value.kind.Revision? && h.run.value.pc == Created(0, source) && source < |h.commits|
    ensures var h' := Advances(h, 2); var run := h.run.value;
      && h' == h.(comments := Reported(h.comments, run.key, h.commits[source].summary),
        run := Some(run.(pc := Done(0))))
      && (Posted(h', 0, run.key) <==> Posted(h, 0, run.key) || !Mentioned(h.comments, 0, run.key))
  {
    var h1 := Apply(h, Advance(true));
    assert Advances(h, 2) == Advances(h1, 1);
    var h' := Apply(h1, Advance(true));
    assert Advances(h1, 1) == Advances(h', 0) == h';
    if Mentioned(h.comments, 0, h.run.value.key) {
      assert h' == h1;
    } else {
      assert h'.comments[|h.comments|].postedFor == Some(h.run.value.key);
    }
  }

  lemma Finishes(h: Hub, h': Hub, source: Id)
    requires Inv(h) && h.run.Some? && h.run.value.kind.Revision? && source < |h.commits| && CanRevise(h)
    requires h.run.value.pc.Fetched? && h' == Apply(h, Advance(true))
      && h' == At(h.(branch := h'.branch, landed := h'.landed), h'.run.value.pc)
    requires h'.run.value.pc == Pushed(h.run.value.pc.existing, source) && h'.branch.Some?
    requires h'.run.value.pc.existing.Some? && h'.run.value.pc.existing.value.number == 0
    ensures Finished(h, Advances(h, 5), source, h'.branch, h'.landed)
    ensures Advances(h, 5).commits == h.commits && Advances(h, 5).run.value.key == h.run.value.key
  {
    StepKeepsInv(h, Advance(true));
    CommentsAndFinishes(h', source);
    assert Advances(h, 5) == Advances(h', 4);
  }

  /** Some commit for the key was pushed on the recorded head, and the branch extends it. */
  ghost predicate IsPublished(h: Hub, n: nat)
    requires n < |h.asked| && h.branch.Some?
  {
    && IsAncestor(h.commits, h.asked[n].head, h.branch.value)
    && exists c: Id :: IsPublishedAs(h, n, c)
  }

  /** `c` is a commit of `head..branch` with the key's trailer. */
  ghost predicate IsPublishedAs(h: Hub, n: nat, c: Id)
    requires n < |h.asked| && h.branch.Some?
  {
    && c < |h.commits| && h.commits[c].key == h.asked[n].key
    && IsAncestor(h.commits, c, h.branch.value) && !IsAncestor(h.commits, c, h.asked[n].head)
  }

  /** What a run pushed for the request is published in this sense as long as the branch keeps it. */
  lemma AnswerIsPublished(h: Hub, n: nat, c: Id)
    requires Reachable(h) && Answers(h, c, n) && h.branch.Some? && IsAncestor(h.commits, c, h.branch.value)
    ensures IsPublishedAs(h, n, c) && IsPublished(h, n) && h.branch.value != h.asked[n].head
  {
    assert Inv(h) by { ReachableInv(h); }
    var head := h.asked[n].head;
    assert head == h.commits[c].parents[0] < c;
    assert IsAncestor(h.commits, head, h.commits[c].parents[0]);
    assert IsAncestor(h.commits, head, c);
    AncestorTransitive(h.commits, head, c, h.branch.value);
    if IsAncestor(h.commits, c, head) {
      AncestorIsOlder(h.commits, c, head);
    }
    AncestorIsOlder(h.commits, c, h.branch.value);
    assert IsPublishedAs(h, n, c);
  }

  /** The retry of request `n` ends with `source` reported and nothing pushed. */
  ghost predicate Recovers(h: Hub, n: nat, h': Hub, source: Id)
    requires n < |h.asked| && h.branch.Some?
  {
    IsPublishedAs(h, n, source) && Finished(h, h', source, h.branch, h.landed)
  }

  /**
   A retry finishes what a crash left: if the key's commit is in the branch's history since the
   recorded head, a new run for the request completes with a summary posted, and pushes nothing.
   */
  lemma RetryCompletes(h: Hub, n: nat, summary: string)
    requires Reachable(h) && n < |h.asked| && summary != "" && CanRevise(h)
    requires h.branch != Some(h.asked[n].head) && IsPublished(h, n)
    ensures exists source: Id :: Recovers(h, n, Advances(Apply(h, StartRevision(n, 0, summary)), 8), source)
  {
    assert Inv(h) by { ReachableInv(h); }
    var h3 := Reopens(h, n, summary);
    var source := FindsPublished(h, n, h3);
    Finishes(h3, At(h3, Pushed(h3.run.value.pc.existing, source)), source);
    assert Recovers(h, n, Advances(h3, 5), source);
  }

  /** The run for request `n` has looked at the branch as it was in `h`. */
  ghost predicate HasFetched(h: Hub, n: nat, h': Hub) {
    && Inv(h) && Inv(h') && n < |h.asked| && h.branch.Some? && h'.run.Some? && h'.run.value.pc.Fetched?
    && h'.run.value == Run(h.asked[n].key, Revision(0, h.asked[n].head), |h.commits|, h'.run.value.pc)
    && h'.run.value.pc.remote == h.branch == h'.branch && h'.landed == h.landed
    && h'.commits == h.commits + [Commit([h.asked[n].head], h.asked[n].key, h'.commits[|h.commits|].summary)]
  }

  lemma LandedHasSummary(h: Hub, c: Id)
    requires Inv(h) && c in h.landed && c < |h.commits| && h.commits[c].key != ""
    ensures h.commits[c].summary != ""
  {
    var n: nat :| Answers(h, c, n);
    assert h.commits[c].parents == [h.asked[n].head];
  }

  /** `_published_revision` recognises a commit that an earlier run pushed. */
  lemma FindsPublished(h: Hub, n: nat, h': Hub) returns (source: Id)
    requires HasFetched(h, n, h') && h.branch.value != h.asked[n].head && IsPublished(h, n)
    requires h.asked[n].key != ""
    ensures IsPublishedAs(h, n, source)
    ensures Apply(h', Advance(true)) == At(h', Pushed(h'.run.value.pc.existing, source))
  {
    var found := FindKeyed(h'.commits, h.asked[n].head, h.branch.value, h.asked[n].key, |h'.commits|);
    var c: Id :| IsPublishedAs(h, n, c);
    SameAncestry(h, n, h', c);
    source := found.value;
    FoundIsPublished(h, n, h', source);
    PushIsLookup(h', h'.run.value.pc.existing, h.branch.value);
  }

  /** For a branch that is not at the recorded head, the push is the search. */
  lemma PushIsLookup(h: Hub, existing: Option<Seen>, remote: Id)
    requires h.run.Some? && h.run.value.kind.Revision? && h.run.value.pc == Fetched(existing, Some(remote))
    requires remote != h.run.value.kind.head && IsAncestor(h.commits, h.run.value.kind.head, remote)
    ensures var found := FindKeyed(h.commits, h.run.value.kind.head, remote, h.run.value.key, |h.commits|);
      found.Some? && h.commits[found.value].summary != "" ==>
        Apply(h, Advance(true)) == At(h, Pushed(existing, found.value))
  {
  }

  /** What the search finds is a pushed commit with a summary. */
  lemma FoundIsPublished(h: Hub, n: nat, h': Hub, c: Id)
    requires HasFetched(h, n, h') && h.asked[n].key != "" && c < |h'.commits|
    requires h'.commits[c].key == h.asked[n].key
    requires IsAncestor(h'.commits, c, h.branch.value) && !IsAncestor(h'.commits, c, h.asked[n].head)
    ensures IsPublishedAs(h, n, c) && h'.commits[c].summary != ""
  {
    BranchIsPublic(h', c);
    LandedHasSummary(h', c);
    AncestorIsOlder(h'.commits, c, h.branch.value);
    SameAncestry(h, n, h', c);
  }

  /** Looking at a commit through the run's own commit, which is not in anybody's history, changes nothing. */
  lemma SameAncestry(h: Hub, n: nat, h': Hub, c: Id)
    requires HasFetched(h, n, h') && c < |h.commits|
    ensures IsAncestor(h'.commits, c, h.branch.value) <==> IsAncestor(h.commits, c, h.branch.value)
    ensures IsAncestor(h'.commits, c, h.asked[n].head) <==> IsAncestor(h.commits, c, h.asked[n].head)
    ensures IsAncestor(h'.commits, h.asked[n].head, h.branch.value) <==>
      IsAncestor(h.commits, h.asked[n].head, h.branch.value)
    ensures h'.commits[c] == h.commits[c]
  {
    AncestorStable(h.commits, h'.commits, c, h.branch.value);
    AncestorStable(h.commits, h'.commits, c, h.asked[n].head);
    AncestorStable(h.commits, h'.commits, h.asked[n].head, h.branch.value);
  }

  /**
   If neither the branch is at the recorded head nor the key's commit in its history since, the
   retry fails and changes nothing.
   */
  lemma RetryFails(h: Hub, n: nat, summary: string)
    requires Reachable(h) && n < |h.asked| && summary != "" && CanRevise(h)
    requires h.branch != Some(h.asked[n].head) && !IsPublished(h, n)
    ensures var h' := Advances(Apply(h, StartRevision(n, 0, summary)), 8);
      && h'.run.Some? && h'.run.value.pc.Failed?
      && h'.branch == h.branch && h'.landed == h.landed && h'.comments == h.comments
  {
    assert Inv(h) by { ReachableInv(h); }
    var h3 := Reopens(h, n, summary);
    FindsNothing(h, n, h3);
    FailedStays(Apply(h3, Advance(true)), 4);
    assert Advances(h3, 5) == Advances(Apply(h3, Advance(true)), 4);
  }

  lemma FindsNothing(h: Hub, n: nat, h': Hub)
    requires HasFetched(h, n, h') && h.branch.value != h.asked[n].head && !IsPublished(h, n)
    requires h.asked[n].key != ""
    ensures Apply(h', Advance(true)) == At(h', Failed)
  {
    var head, remote := h.asked[n].head, h.branch.value;
    SameAncestry(h, n, h', head);
    var found := FindKeyed(h'.commits, head, remote, h.asked[n].key, |h'.commits|);
    if found.Some? && IsAncestor(h.commits, head, remote) {
      FoundIsPublished(h, n, h', found.value);
    }
  }

  lemma {:induction false} FailedStays(h: Hub, n: nat)
    requires h.run.Some? && h.run.value.pc.Failed?
    ensures Advances(h, n) == h
  {
    if n > 0 {
      FailedStays(h, n - 1);
    }
  }

  /** And if the branch is still at the recorded head, the retry lands its commit and reports it. */
  lemma RetryLands(h: Hub, n: nat, summary: string)
    requires Reachable(h) && n < |h.asked| && summary != "" && CanRevise(h) && h.branch == Some(h.asked[n].head)
    ensures var h', own := Advances(Apply(h, StartRevision(n, 0, summary)), 8), |h.commits|;
      && Finished(h, h', own, Some(own), h.landed + {own})
      && h'.commits == h.commits + [Commit([h.asked[n].head], h.asked[n].key, summary)]
      && h'.run.value.key == h.asked[n].key
  {
    assert Inv(h) by { ReachableInv(h); }
    var h3 := Reopens(h, n, summary);
    PushesOnHead(h3);
    Finishes(h3, Land(h3, h3.run.value.pc.existing), |h.commits|);
  }

  lemma PushesOnHead(h: Hub)
    requires Inv(h) && h.run.Some? && h.run.value.kind.Revision? && h.run.value.pc.Fetched?
    requires h.run.value.pc.remote == h.branch == Some(h.run.value.kind.head)
    ensures Apply(h, Advance(true)) == Land(h, h.run.value.pc.existing)
  {
    var run := h.run.value;
    assert IsAncestor(h.commits, run.kind.head, h.commits[run.local].parents[0]);
    assert IsAncestor(h.commits, run.kind.head, run.local);
  }

  // ---------------------------------------------------------------- asking again

  /** The key is asked for at the present head, and its run is not disturbed. */
  function AskAndRun(h: Hub, key: string, summary: string): Hub {
    Advances(Apply(Apply(h, Ask(key)), StartRevision(|h.asked|, 0, summary)), 8)
  }

  /**
   It does land again: a key asked for once more, after a commit for it had been pushed, gets
   another one on top. If the first was reported, the second never is.
   */
  lemma AskedAgainLandsAgain(h: Hub, key: string, c: Id, summary: string)
    requires Reachable(h) && CanRevise(h) && summary != ""
    requires c in h.landed && c < |h.commits| && h.commits[c].key == key != ""
    ensures var h', d := AskAndRun(h, key, summary), |h.commits|;
      && Finished(Apply(h, Ask(key)), h', d, Some(d), h.landed + {d})
      && h'.commits == h.commits + [Commit([h.branch.value], key, summary)]
      && c != d && SameKey(h', c, d)
      && (Mentioned(h.comments, 0, key) ==> h'.comments == h.comments)
  {
    var h1 := Apply(h, Ask(key));
    StepIsReachable(h, Ask(key));
    RetryLands(h1, |h.asked|, summary);
  }

  lemma StepIsReachable(h: Hub, a: Action)
    requires Reachable(h)
    ensures Reachable(Apply(h, a))
  {
    var h0: Hub, actions: seq<Action> :| Untouched(h0) && h == Exec(h0, actions);
    ExecAppend(h0, actions, [a]);
    assert Exec(h, [a]) == Exec(Apply(h, a), []);
    assert Apply(h, a) == Exec(h0, actions + [a]);
  }

  lemma {:induction false} AdvancesAreReachable(h: Hub, n: nat)
    requires Reachable(h)
    ensures Reachable(Advances(h, n))
    decreases n
  {
    if n > 0 {
      StepIsReachable(h, Advance(true));
      AdvancesAreReachable(Apply(h, Advance(true)), n - 1);
    }
  }

  lemma AskAndRunIsReachable(h: Hub, key: string, summary: string)
    requires Reachable(h)
    ensures Reachable(AskAndRun(h, key, summary))
  {
    StepIsReachable(h, Ask(key));
    StepIsReachable(Apply(h, Ask(key)), StartRevision(|h.asked|, 0, summary));
    AdvancesAreReachable(Apply(Apply(h, Ask(key)), StartRevision(|h.asked|, 0, summary)), 8);
  }

  /** A first publication with its draft pull request. */
  function Opened(): Hub {
    Exec(Hub([ROOT], None, [], [], [], {}, None), PUBLISH + [Advance(true)])
  }

  lemma OpenedIsReachable()
    ensures Reachable(Opened()) && CanRevise(Opened()) && Opened().comments == []
  {
    var h0, h1 := Hub([ROOT], None, [], [], [], {}, None), Early([ROOT, FIRST], Some(1), {1}, 1, Pushed(None, 1));
    FirstLands();
    ExecAppend(h0, PUBLISH, [Advance(true)]);
    assert Exec(h1, [Advance(true)]) == Exec(Apply(h1, Advance(true)), []);
    assert Untouched(h0);
    assert Reachable(Opened());
  }

  /** It is handled once. */
  lemma OneKeyLands() returns (h: Hub, c: Id)
    ensures Reachable(h) && CanRevise(h) && c in h.landed && c < |h.commits|
    ensures h.commits[c].key == "k" && h.commits[c].summary == "first"
    ensures h.comments == [Comment(0, Some("k"), {"k"}, "first")]
  {
    var h1 := Opened();
    OpenedIsReachable();
    StepIsReachable(h1, Ask("k"));
    RetryLands(Apply(h1, Ask("k")), |h1.asked|, "first");
    AskAndRunIsReachable(h1, "k", "first");
    h, c := AskAndRun(h1, "k", "first"), |h1.commits|;
  }

  /** Such a run: one comment is handled twice, two commits carry its key, and one summary is posted. */
  lemma OneKeyLandsTwice() returns (h: Hub, c: Id, d: Id)
    ensures Reachable(h) && c != d && SameKey(h, c, d)
    ensures |h.comments| == 1 && h.comments[0].summary == h.commits[c].summary != h.commits[d].summary
  {
    var h1: Hub;
    h1, c := OneKeyLands();
    AskedAgainLandsAgain(h1, "k", c, "second");
    AskAndRunIsReachable(h1, "k", "second");
    h, d := AskAndRun(h1, "k", "second"), |h1.commits|;
    assert Mentioned(h1.comments, 0, "k") by {
      assert "k" in h1.comments[0].mentions;
    }
  }
}
