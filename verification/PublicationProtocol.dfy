/**
 `publish` of `agricola/publisher.py` for one stable branch, statement by statement. Runs follow
 one another; each may stop after any statement and be started again, while other people push
 commits, comment, and open, close or merge the pull request at any moment.
 */
module PublicationProtocol {
  import opened Wrappers
  import opened GitGraph

  datatype PullState = Open | Closed | Merged

  datatype Pull = Pull(state: PullState, draft: bool)

  /** `postedFor` is the key whose summary comment this is; `mentions` the keys whose marker it contains. */
  datatype Comment = Comment(pull: nat, postedFor: Option<string>, mentions: set<string>, summary: string)

  datatype Kind = Initial(base: Id) | Revision(pull: nat, head: Id)

  datatype Seen = Seen(number: nat, pull: Pull)

  datatype Pc =
    | Begin
    | Found(existing: Option<Seen>)
    | Checked(existing: Option<Seen>)
    | Fetched(existing: Option<Seen>, remote: Option<Id>)
    | Pushed(existing: Option<Seen>, source: Id)
    | Created(pull: nat, source: Id)
    | Uncommented(pull: nat, source: Id)
    | Done(pull: nat)
    | Failed

  /** `local` is the verified commit of the checkout; `source` in `Pc` is the commit whose summary is reported. */
  datatype Run = Run(key: string, kind: Kind, local: Id, pc: Pc)

  /** A request for a revision: its key, the head it records, and what runs had pushed when it was made. */
  datatype Asked = Asked(key: string, head: Id, landed: set<Id>)

  /** `asked` holds every request for a revision in order, `landed` every commit a run has pushed. */
  datatype Hub = Hub(
    commits: seq<Commit>, branch: Option<Id>, pulls: seq<Pull>, comments: seq<Comment>,
    asked: seq<Asked>, landed: set<Id>, run: Option<Run>)

  datatype Action =
    | Ask(key: string)                           // a comment, perhaps handled before, asks to revise the present head
    | StartRevision(n: nat, pull: nat, summary: string)
    | StartInitial(key: string, base: Id)
    | Advance(ok: bool)                          // the next statement; `ok` is the remote's answer
    | Crash
    | HumanCommit(others: seq<Id>, summary: string)
    | HumanPull(number: nat, become: Pull)
    | HumanComment(number: nat, mentions: set<string>)

  /** A commit other people may build on: not an unpublished Agricola revision. */
  predicate Public(h: Hub, c: Id) {
    c < |h.commits| && (h.commits[c].key != "" ==> c in h.landed)
  }

  /** A push without force is accepted only if it fast-forwards. */
  predicate FastForwards(h: Hub, local: Id) {
    h.branch.None? || IsAncestor(h.commits, h.branch.value, local)
  }

  function At(h: Hub, pc: Pc): Hub
    requires h.run.Some?
  {
    h.(run := Some(h.run.value.(pc := pc)))
  }

  function Land(h: Hub, existing: Option<Seen>): Hub
    requires h.run.Some?
  {
    var local := h.run.value.local;
    At(h.(branch := Some(local), landed := h.landed + {local}), Pushed(existing, local))
  }

  /** The checks between `_find_existing_pull` and the first git call. */
  function CheckPull(h: Hub, existing: Option<Seen>): Hub
    requires h.run.Some?
  {
    var run := h.run.value;
    if run.kind.Revision? && (existing.None? || existing.value.number != run.kind.pull) then At(h, Failed)
    else if run.kind.Revision? && existing.value.pull.state != Open then At(h, Failed)
    else if existing.Some? && existing.value.pull.state == Merged then At(h, Done(existing.value.number))
    else if existing.Some? && existing.value.pull.state == Closed then At(h, Failed)
    else
      var h' := if existing.Some? && !existing.value.pull.draft && existing.value.number < |h.pulls|
                then var n := existing.value.number; h.(pulls := h.pulls[n := h.pulls[n].(draft := true)])
                else h;
      At(h', Checked(existing))
  }

  function ReadRemote(h: Hub, existing: Option<Seen>): Hub
    requires h.run.Some?
  {
    var run := h.run.value;
    if run.kind.Initial? then At(h, Fetched(existing, h.branch))
    else if run.local >= |h.commits| || h.commits[run.local].summary == "" || h.branch.None? then At(h, Failed)
    else At(h, Fetched(existing, h.branch))
  }

  function PushInitial(h: Hub, existing: Option<Seen>, remote: Option<Id>, ok: bool): Hub
    requires h.run.Some?
  {
    match remote
    case None => if ok && FastForwards(h, h.run.value.local) then Land(h, existing) else At(h, Failed)
    case Some(_) => if ok && h.branch == remote then Land(h, existing) else At(h, Failed)
  }

  function PushRevision(h: Hub, existing: Option<Seen>, remote: Option<Id>, ok: bool): Hub
    requires h.run.Some? && h.run.value.kind.Revision?
  {
    var run := h.run.value;
    var head := run.kind.head;
    if remote == Some(head) then
      if ok && FastForwards(h, run.local) then Land(h, existing) else At(h, Failed)
    else if remote.None? || !IsAncestor(h.commits, head, remote.value) then At(h, Failed)
    else
      match FindKeyed(h.commits, head, remote.value, run.key, |h.commits|)
      case None => At(h, Failed)
      case Some(c) => if h.commits[c].summary == "" then At(h, Failed) else At(h, Pushed(existing, c))
  }

  function Mentioned(comments: seq<Comment>, pull: nat, key: string): (r: bool)
    ensures r <==> exists i :: 0 <= i < |comments| && comments[i].pull == pull && key in comments[i].mentions
  {
    exists i :: 0 <= i < |comments| && comments[i].pull == pull && key in comments[i].mentions
  }

  function Next(h: Hub, ok: bool): Hub
    requires h.run.Some?
  {
    var run := h.run.value;
    match run.pc
    case Begin => At(h, Found(if h.pulls == [] then None else Some(Seen(0, h.pulls[0]))))
    case Found(existing) => CheckPull(h, existing)
    case Checked(existing) => ReadRemote(h, existing)
    case Fetched(existing, remote) =>
      if run.kind.Initial? then PushInitial(h, existing, remote, ok) else PushRevision(h, existing, remote, ok)
    case Pushed(Some(seen), source) => At(h, Created(seen.number, source))
    case Pushed(None, source) =>
      if ok then At(h.(pulls := h.pulls + [Pull(Open, true)]), Created(|h.pulls|, source)) else At(h, Failed)
    case Created(pull, source) =>
      if run.kind.Initial? || Mentioned(h.comments, pull, run.key) then At(h, Done(pull))
      else At(h, Uncommented(pull, source))
    case Uncommented(pull, source) =>
      if source < |h.commits| && ok then
        At(h.(comments := h.comments + [Comment(pull, Some(run.key), {run.key}, h.commits[source].summary)]),
          Done(pull))
      else At(h, Failed)
    case Done(_) => h
    case Failed => h
  }

  function Apply(h: Hub, a: Action): Hub {
    match a
    case Ask(key) =>
      if key != "" && h.branch.Some? then h.(asked := h.asked + [Asked(key, h.branch.value, h.landed)]) else h
    case StartRevision(n, pull, summary) =>
      if n < |h.asked| then
        h.(commits := h.commits + [Commit([h.asked[n].head], h.asked[n].key, summary)],
           run := Some(Run(h.asked[n].key, Revision(pull, h.asked[n].head), |h.commits|, Begin)))
      else h
    case StartInitial(key, base) =>
      if Public(h, base) then
        h.(commits := h.commits + [Commit([base], "", "")],
           run := Some(Run(key, Initial(base), |h.commits|, Begin)))
      else h
    case Advance(ok) => if h.run.Some? then Next(h, ok) else h
    case Crash => h.(run := None)
    case HumanCommit(others, summary) =>
      if h.branch.Some? && forall i :: 0 <= i < |others| ==> Public(h, others[i]) then
        h.(commits := h.commits + [Commit([h.branch.value] + others, "", summary)], branch := Some(|h.commits|))
      else h
    case HumanPull(number, become) =>
      if number < |h.pulls| then h.(pulls := h.pulls[number := become]) else h
    case HumanComment(number, mentions) =>
      h.(comments := h.comments + [Comment(number, None, mentions, "")])
  }

  function Exec(h: Hub, actions: seq<Action>): Hub
    decreases |actions|
  {
    if actions == [] then h else Exec(Apply(h, actions[0]), actions[1..])
  }

  // ---------------------------------------------------------------- invariant

  /** Commit `c` was made for the `n`-th request. */
  ghost predicate Answers(h: Hub, c: Id, n: nat) {
    && c < |h.commits| && n < |h.asked|
    && h.commits[c].key == h.asked[n].key && h.commits[c].parents == [h.asked[n].head]
  }

  ghost predicate IsAnswer(h: Hub, c: Id) {
    exists n: nat :: Answers(h, c, n)
  }

  ghost predicate GraphOk(h: Hub) {
    && WellFormed(h.commits)
    && (h.branch.Some? ==> Public(h, h.branch.value))
    && (forall c: Id :: c in h.landed ==> c < |h.commits|)
    && (forall c: Id :: c < |h.commits| && h.commits[c].key != "" ==> IsAnswer(h, c))
    && (forall n :: 0 <= n < |h.asked| ==>
          h.asked[n].key != "" && Public(h, h.asked[n].head) && h.asked[n].landed <= h.landed)
  }

  /** Every Agricola revision in somebody's history was pushed by a run. */
  ghost predicate HistoryOk(h: Hub) {
    forall x: Id, c: Id :: x < |h.commits| && c != x && IsAncestor(h.commits, c, x) ==> Public(h, c)
  }

  /** The branch has moved past the head that a pushed revision was made on. */
  ghost predicate LandedOk(h: Hub) {
    forall c: Id, p: Id :: c in h.landed && c < |h.commits| && h.commits[c].key != "" && h.commits[c].parents == [p] ==>
      h.branch.Some? && h.branch.value > p && h.commits[c].summary != ""
  }

  /** `d` was asked for, however often, only after `c` had landed. */
  ghost predicate AskedAfter(h: Hub, c: Id, d: Id) {
    forall n: nat :: Answers(h, d, n) ==> c in h.asked[n].landed
  }

  ghost predicate SameKey(h: Hub, c: Id, d: Id) {
    c in h.landed && d in h.landed && c < |h.commits| && d < |h.commits| && h.commits[c].key == h.commits[d].key != ""
  }

  /**
   While the branch is where a request found it, nothing has landed since; and of two revisions
   that landed for one key, one was asked for when the other had already landed.
   */
  ghost predicate AskedOk(h: Hub) {
    && (forall n :: 0 <= n < |h.asked| && h.branch == Some(h.asked[n].head) ==> h.landed <= h.asked[n].landed)
    && (forall c: Id, d: Id :: SameKey(h, c, d) && c != d ==> AskedAfter(h, c, d) || AskedAfter(h, d, c))
    && (forall c: Id, d: Id :: SameKey(h, c, d) && h.commits[c].parents == h.commits[d].parents ==> c == d)
  }

  /** The summary posted for `key` is that of the commit that landed for it. */
  ghost predicate Reports(h: Hub, key: string, summary: string) {
    exists c: Id :: c in h.landed && c < |h.commits| && h.commits[c].key == key && h.commits[c].summary == summary
  }

  ghost predicate CommentsOk(h: Hub) {
    && (forall i :: 0 <= i < |h.comments| && h.comments[i].postedFor.Some? ==>
          && h.comments[i].postedFor.value in h.comments[i].mentions
          && Reports(h, h.comments[i].postedFor.value, h.comments[i].summary))
    && (forall i, j :: 0 <= i < j < |h.comments| && h.comments[i].postedFor.Some? ==>
          h.comments[i].pull != h.comments[j].pull || h.comments[i].postedFor != h.comments[j].postedFor)
  }

  ghost predicate LocalOk(h: Hub, run: Run) {
    && run.local < |h.commits|
    && (run.kind.Revision? ==>
          h.commits[run.local].key == run.key != "" && h.commits[run.local].parents == [run.kind.head])
    && (run.kind.Revision? && run.pc.Fetched? ==> h.commits[run.local].summary != "")
    && (run.kind.Initial? ==> h.commits[run.local].key == "" && h.commits[run.local].parents == [run.kind.base])
    && (run.pc.Begin? || run.pc.Found? || run.pc.Checked? || run.pc.Fetched? ==> IsFresh(h, run.local))
  }

  /** The run's own commit is newer than everything pushed, and nobody has seen it. */
  ghost predicate IsFresh(h: Hub, local: Id) {
    && (forall c :: c in h.landed ==> c < local)
    && h.branch != Some(local)
    && (forall n :: 0 <= n < |h.asked| ==> h.asked[n].head != local)
  }

  /** What the run has seen of the pull request still holds. */
  ghost predicate SeenOk(h: Hub, pc: Pc) {
    match pc
    case Found(existing) => if existing.None? then h.pulls == [] else existing.value.number < |h.pulls|
    case Checked(existing) => if existing.None? then h.pulls == [] else existing.value.number < |h.pulls|
    case Fetched(existing, _) => if existing.None? then h.pulls == [] else existing.value.number < |h.pulls|
    case Pushed(existing, _) => if existing.None? then h.pulls == [] else existing.value.number < |h.pulls|
    case Created(pull, _) => pull < |h.pulls|
    case Uncommented(pull, _) => pull < |h.pulls|
    case Done(pull) => pull < |h.pulls|
    case _ => true
  }

  ghost predicate SourceOk(h: Hub, run: Run, source: Id) {
    source in h.landed && source < |h.commits| && (run.kind.Revision? ==> h.commits[source].key == run.key)
  }

  /** A commit for `key` has landed. */
  ghost predicate HasLanded(h: Hub, key: string) {
    exists c: Id :: c in h.landed && c < |h.commits| && h.commits[c].key == key
  }

  ghost predicate Commented(h: Hub, pull: nat, key: string) {
    exists i :: 0 <= i < |h.comments| && h.comments[i].pull == pull && key in h.comments[i].mentions
  }

  ghost predicate ProgressOk(h: Hub, run: Run) {
    match run.pc
    case Fetched(_, Some(remote)) =>
      remote < |h.commits| && h.branch.Some? && (run.kind.Revision? ==> IsAncestor(h.commits, remote, h.branch.value))
    case Pushed(_, source) => SourceOk(h, run, source)
    case Created(_, source) => SourceOk(h, run, source)
    case Uncommented(pull, source) =>
      && SourceOk(h, run, source) && run.kind.Revision?
      && forall i :: 0 <= i < |h.comments| && h.comments[i].pull == pull ==> h.comments[i].postedFor != Some(run.key)
    case Done(pull) => run.kind.Revision? ==>
      Commented(h, pull, run.key) && HasLanded(h, run.key)
    case _ => true
  }

  ghost predicate RunOk(h: Hub) {
    h.run.Some? ==>
      LocalOk(h, h.run.value) && SeenOk(h, h.run.value.pc) && ProgressOk(h, h.run.value)
  }

  ghost predicate Inv(h: Hub) {
    GraphOk(h) && HistoryOk(h) && LandedOk(h) && AskedOk(h) && |h.pulls| <= 1 && CommentsOk(h) && RunOk(h)
  }

  // ---------------------------------------------------------------- every step keeps it

  lemma HasLandedStays(h: Hub, h': Hub, key: string)
    requires HasLanded(h, key) && h.commits <= h'.commits && h.landed <= h'.landed
    ensures HasLanded(h', key)
  {
    var c: Id :| c in h.landed && c < |h.commits| && h.commits[c].key == key;
    assert h'.commits[c].key == key;
  }

  /** Nothing happened to commits, branch or request heads. */
  ghost predicate SameGraph(h: Hub, h': Hub) {
    h'.commits == h.commits && h'.branch == h.branch && h'.asked == h.asked && h'.landed == h.landed
  }

  lemma GraphStays(h: Hub, h': Hub)
    requires GraphOk(h) && HistoryOk(h) && LandedOk(h) && SameGraph(h, h')
    ensures GraphOk(h') && HistoryOk(h') && LandedOk(h')
  {
    LandedHistory(h, h');
    AnswersStay(h, h');
  }

  lemma AnswersStay(h: Hub, h': Hub)
    requires h.commits <= h'.commits && h.asked <= h'.asked
    ensures forall c: Id :: IsAnswer(h, c) ==> IsAnswer(h', c)
  {
    forall c: Id | IsAnswer(h, c) ensures IsAnswer(h', c) {
      var n: nat :| Answers(h, c, n);
      assert Answers(h', c, n);
    }
  }

  lemma AskedStays(h: Hub, h': Hub)
    requires AskedOk(h) && SameGraph(h, h')
    ensures AskedOk(h')
  {
    forall c: Id, d: Id | SameKey(h', c, d) && c != d ensures AskedAfter(h', c, d) || AskedAfter(h', d, c) {
      assert SameKey(h, c, d);
      if AskedAfter(h, c, d) {
        AfterStays(h, h', c, d);
      } else {
        AfterStays(h, h', d, c);
      }
    }
    forall c: Id, d: Id | SameKey(h', c, d) && h'.commits[c].parents == h'.commits[d].parents ensures c == d {
      assert SameKey(h, c, d);
    }
  }

  /** New commits and new requests, made when `c` has landed, do not matter for an old commit `d`. */
  lemma AfterStays(h: Hub, h': Hub, c: Id, d: Id)
    requires AskedAfter(h, c, d) && d < |h.commits| && h.commits <= h'.commits && h.asked <= h'.asked
    requires forall n :: |h.asked| <= n < |h'.asked| ==> c in h'.asked[n].landed
    ensures AskedAfter(h', c, d)
  {
    forall n: nat | Answers(h', d, n) ensures c in h'.asked[n].landed {
      if n < |h.asked| {
        assert Answers(h, d, n);
      }
    }
  }

  /** Adding a commit on public parents leaves everybody's history public. */
  lemma AddedCommit(h: Hub, h': Hub, c: Commit)
    requires GraphOk(h) && HistoryOk(h)
    requires h'.commits == h.commits + [c] && h'.landed == h.landed
    requires forall i :: 0 <= i < |c.parents| ==> Public(h, c.parents[i])
    ensures HistoryOk(h')
  {
    forall x: Id, a: Id | x < |h'.commits| && a != x && IsAncestor(h'.commits, a, x) ensures Public(h', a) {
      if x < |h.commits| {
        AncestorStable(h.commits, h'.commits, a, x);
        assert Public(h, a);
      } else {
        var i :| 0 <= i < |c.parents| && c.parents[i] < x && IsAncestor(h'.commits, a, c.parents[i]);
        AncestorStable(h.commits, h'.commits, a, c.parents[i]);
        assert Public(h, a);
      }
    }
  }

  /** Landing makes more commits public, never fewer. */
  lemma LandedHistory(h: Hub, h': Hub)
    requires HistoryOk(h) && h'.commits == h.commits && h.landed <= h'.landed
    ensures HistoryOk(h')
  {
    forall x: Id, c: Id | x < |h'.commits| && c != x && IsAncestor(h'.commits, c, x) ensures Public(h', c) {
      assert Public(h, c);
    }
  }

  /** A revision lands only on its recorded head, and no revision for its key was pushed on that head before. */
  lemma RevisionLandsOnHead(h: Hub)
    requires Inv(h) && h.run.Some? && h.run.value.kind.Revision? && h.run.value.pc.Fetched?
    requires h.run.value.pc.remote == Some(h.run.value.kind.head) && FastForwards(h, h.run.value.local)
    ensures h.branch == Some(h.run.value.kind.head)
    ensures forall c: Id :: c in h.landed ==>
      h.commits[c].key != h.run.value.key || h.commits[c].parents != [h.run.value.kind.head]
  {
    var run := h.run.value;
    var head, b := run.kind.head, h.branch.value;
    AncestorIsOlder(h.commits, head, b);
    assert IsAncestor(h.commits, b, head);
    AncestorIsOlder(h.commits, b, head);
  }

  /** The run is about to push, and its push would be accepted. */
  ghost predicate MayLand(h: Hub, existing: Option<Seen>) {
    && Inv(h) && h.run.Some? && h.run.value.pc.Fetched? && h.run.value.pc.existing == existing
    && (h.run.value.kind.Revision? ==>
          h.run.value.pc.remote == Some(h.run.value.kind.head) && FastForwards(h, h.run.value.local))
  }

  lemma LandKeepsGraph(h: Hub, existing: Option<Seen>)
    requires MayLand(h, existing)
    ensures GraphOk(Land(h, existing)) && HistoryOk(Land(h, existing))
  {
    LandedHistory(h, Land(h, existing));
    AnswersStay(h, Land(h, existing));
  }

  lemma LandKeepsLanded(h: Hub, existing: Option<Seen>)
    requires MayLand(h, existing)
    ensures LandedOk(Land(h, existing))
  {
    var h' := Land(h, existing);
    forall c: Id, p: Id | c in h'.landed && c < |h'.commits| && h'.commits[c].key != "" && h'.commits[c].parents == [p]
      ensures h'.branch.value > p && h'.commits[c].summary != ""
    {
      assert p == h.commits[c].parents[0] < c <= h.run.value.local;
    }
  }

  /** Whatever landed before for the key had landed when the branch's head was recorded. */
  lemma LandsAfter(h: Hub, existing: Option<Seen>, c: Id)
    requires MayLand(h, existing) && SameKey(Land(h, existing), c, h.run.value.local) && c != h.run.value.local
    ensures AskedAfter(Land(h, existing), c, h.run.value.local)
    ensures h.commits[c].parents != h.commits[h.run.value.local].parents
  {
    var h', local := Land(h, existing), h.run.value.local;
    assert h.run.value.kind.Revision?;
    RevisionLandsOnHead(h);
    forall n: nat | Answers(h', local, n) ensures c in h'.asked[n].landed {
      assert [h.asked[n].head] == [h.run.value.kind.head];
      assert [h.asked[n].head][0] == h.run.value.kind.head;
    }
  }

  lemma LandKeepsAsked(h: Hub, existing: Option<Seen>)
    requires MayLand(h, existing)
    ensures AskedOk(Land(h, existing))
  {
    var h', local := Land(h, existing), h.run.value.local;
    forall c: Id, d: Id | SameKey(h', c, d) && c != d
      ensures AskedAfter(h', c, d) || AskedAfter(h', d, c)
      ensures h'.commits[c].parents != h'.commits[d].parents
    {
      if d == local {
        LandsAfter(h, existing, c);
      } else if c == local {
        LandsAfter(h, existing, d);
      } else {
        OldPairStays(h, h', c, d);
      }
    }
  }

  lemma OldPairStays(h: Hub, h': Hub, c: Id, d: Id)
    requires AskedOk(h) && SameKey(h, c, d) && c != d
    requires h.commits <= h'.commits && h.asked <= h'.asked
    requires forall n :: |h.asked| <= n < |h'.asked| ==> h.landed <= h'.asked[n].landed
    ensures AskedAfter(h', c, d) || AskedAfter(h', d, c)
    ensures h'.commits[c].parents != h'.commits[d].parents
  {
    if AskedAfter(h, c, d) {
      AfterStays(h, h', c, d);
    } else {
      AfterStays(h, h', d, c);
    }
  }

  lemma LandKeepsRun(h: Hub, existing: Option<Seen>)
    requires MayLand(h, existing)
    ensures RunOk(Land(h, existing))
  {
  }

  lemma LandKeepsInv(h: Hub, existing: Option<Seen>)
    requires MayLand(h, existing)
    ensures Inv(Land(h, existing))
  {
    LandKeepsGraph(h, existing);
    LandKeepsLanded(h, existing);
    LandKeepsAsked(h, existing);
    LandKeepsRun(h, existing);
    CommentsStay(h, Land(h, existing));
  }

  /** Comments stay in order while commits and landings only grow. */
  lemma CommentsStay(h: Hub, h': Hub)
    requires CommentsOk(h) && h'.comments == h.comments && h.commits <= h'.commits && h.landed <= h'.landed
    ensures CommentsOk(h')
  {
    forall i | 0 <= i < |h'.comments| && h'.comments[i].postedFor.Some?
      ensures Reports(h', h'.comments[i].postedFor.value, h'.comments[i].summary)
    {
      assert Reports(h, h.comments[i].postedFor.value, h.comments[i].summary);
    }
  }

  /** One more commit, which has not landed, and at most somebody else's moves the branch. */
  ghost predicate Adds(h: Hub, h': Hub, c: Commit) {
    && h'.commits == h.commits + [c] && h'.landed == h.landed && h'.asked == h.asked && h'.comments == h.comments
    && (h'.branch == h.branch || (c.key == "" && h.branch.Some? && h'.branch == Some(|h.commits|)))
  }

  lemma AddedGraph(h: Hub, h': Hub, c: Commit)
    requires Inv(h) && Adds(h, h', c)
    requires forall i :: 0 <= i < |c.parents| ==> Public(h, c.parents[i])
    requires c.key != "" ==> exists n: nat :: n < |h.asked| && c.key == h.asked[n].key && c.parents == [h.asked[n].head]
    ensures GraphOk(h') && HistoryOk(h')
  {
    AddedCommit(h, h', c);
    AnswersStay(h, h');
    assert forall x: Id :: Public(h, x) ==> Public(h', x);
    assert c.key != "" ==> IsAnswer(h', |h.commits|) by {
      if c.key != "" {
        var n: nat :| n < |h.asked| && c.key == h.asked[n].key && c.parents == [h.asked[n].head];
        assert Answers(h', |h.commits|, n);
      }
    }
    forall x: Id | x < |h'.commits| && h'.commits[x].key != "" ensures IsAnswer(h', x) {
      assert x < |h.commits| ==> IsAnswer(h, x);
    }
  }

  lemma AddedLanded(h: Hub, h': Hub, c: Commit)
    requires Inv(h) && Adds(h, h', c)
    ensures LandedOk(h') && AskedOk(h') && CommentsOk(h')
  {
    CommentsStay(h, h');
    forall x: Id, y: Id | SameKey(h', x, y) && x != y
      ensures AskedAfter(h', x, y) || AskedAfter(h', y, x)
      ensures h'.commits[x].parents != h'.commits[y].parents
    {
      assert SameKey(h, x, y);
      OldPairStays(h, h', x, y);
    }
  }

  lemma StartKeepsInv(h: Hub, a: Action)
    requires Inv(h) && (a.StartRevision? || a.StartInitial?)
    ensures Inv(Apply(h, a))
  {
    var h' := Apply(h, a);
    if h' != h {
      var c := h'.commits[|h.commits|];
      AddedGraph(h, h', c);
      AddedLanded(h, h', c);
    }
  }

  lemma HumanCommitKeepsInv(h: Hub, others: seq<Id>, summary: string)
    requires Inv(h)
    ensures Inv(Apply(h, HumanCommit(others, summary)))
  {
    var h' := Apply(h, HumanCommit(others, summary));
    if h' != h {
      var c := h'.commits[|h.commits|];
      AddedGraph(h, h', c);
      AddedLanded(h, h', c);
      HumanCommitKeepsRun(h, h', c);
    }
  }

  lemma HumanCommitKeepsRun(h: Hub, h': Hub, c: Commit)
    requires Inv(h) && h.branch.Some? && |c.parents| > 0 && c.parents[0] == h.branch.value
    requires h' == h.(commits := h.commits + [c], branch := Some(|h.commits|))
    ensures RunOk(h')
  {
    if h.run.Some? {
      var run := h.run.value;
      if run.pc.Fetched? && run.pc.remote.Some? && run.kind.Revision? {
        var r, b := run.pc.remote.value, h.branch.value;
        AncestorStable(h.commits, h'.commits, r, b);
        assert IsAncestor(h'.commits, r, c.parents[0]);
        assert IsAncestor(h'.commits, r, |h.commits|);
      }
      if run.pc.Done? && run.kind.Revision? {
        HasLandedStays(h, h', run.key);
        assert Commented(h', run.pc.pull, run.key);
      }
    }
  }

  lemma AskKeepsGraph(h: Hub, key: string)
    requires GraphOk(h) && key != "" && h.branch.Some?
    ensures GraphOk(Apply(h, Ask(key)))
  {
    AnswersStay(h, Apply(h, Ask(key)));
  }

  lemma AskKeepsAsked(h: Hub, key: string)
    requires AskedOk(h) && key != "" && h.branch.Some?
    ensures AskedOk(Apply(h, Ask(key)))
  {
    var h' := Apply(h, Ask(key));
    forall c: Id, d: Id | SameKey(h', c, d) && c != d
      ensures AskedAfter(h', c, d) || AskedAfter(h', d, c)
      ensures h'.commits[c].parents != h'.commits[d].parents
    {
      assert SameKey(h, c, d);
      OldPairStays(h, h', c, d);
    }
  }

  lemma AskKeepsInv(h: Hub, key: string)
    requires Inv(h)
    ensures Inv(Apply(h, Ask(key)))
  {
    var h' := Apply(h, Ask(key));
    if h' != h {
      AskKeepsGraph(h, key);
      LandedHistory(h, h');
      AskKeepsAsked(h, key);
      CommentsStay(h, h');
      RunStays(h, h');
    }
  }

  /** The run is not disturbed by what others do off the branch. */
  lemma RunStays(h: Hub, h': Hub)
    requires RunOk(h) && h'.run == h.run
    requires h'.commits == h.commits && h'.branch == h.branch && h'.landed == h.landed
    requires |h'.pulls| == |h.pulls| && h.comments <= h'.comments
    requires forall i :: |h.comments| <= i < |h'.comments| ==> h'.comments[i].postedFor.None?
    requires forall n :: 0 <= n < |h'.asked| ==>
      (n < |h.asked| && h'.asked[n] == h.asked[n]) || h.branch == Some(h'.asked[n].head)
    ensures RunOk(h')
  {
    if h.run.Some? && h.run.value.pc.Done? && h.run.value.kind.Revision? {
      var run := h.run.value;
      var i :| 0 <= i < |h.comments| && h.comments[i].pull == run.pc.pull && run.key in h.comments[i].mentions;
      assert h'.comments[i] == h.comments[i];
      HasLandedStays(h, h', run.key);
    }
  }

  lemma HumanPullKeepsInv(h: Hub, number: nat, become: Pull)
    requires Inv(h)
    ensures Inv(Apply(h, HumanPull(number, become)))
  {
    var h' := Apply(h, HumanPull(number, become));
    GraphStays(h, h');
    AskedStays(h, h');
    CommentsStay(h, h');
    RunStays(h, h');
  }

  lemma HumanCommentKeepsInv(h: Hub, number: nat, mentions: set<string>)
    requires Inv(h)
    ensures Inv(Apply(h, HumanComment(number, mentions)))
  {
    var h' := Apply(h, HumanComment(number, mentions));
    GraphStays(h, h');
    AskedStays(h, h');
    CommentAdded(h, h');
    RunStays(h, h');
  }

  /** One more comment is in order if it is somebody else's, or the first for its key on its pull request. */
  lemma CommentAdded(h: Hub, h': Hub)
    requires CommentsOk(h) && h'.commits == h.commits && h'.landed == h.landed
    requires |h'.comments| == |h.comments| + 1 && h'.comments[..|h.comments|] == h.comments
    requires var c := h'.comments[|h.comments|];
      c.postedFor.Some? ==>
        && c.postedFor.value in c.mentions && Reports(h, c.postedFor.value, c.summary)
        && forall i :: 0 <= i < |h.comments| && h.comments[i].pull == c.pull ==> h.comments[i].postedFor != c.postedFor
    ensures CommentsOk(h')
  {
    assert forall i :: 0 <= i < |h.comments| ==> h'.comments[i] == h.comments[i];
    forall i | 0 <= i < |h'.comments| && h'.comments[i].postedFor.Some?
      ensures Reports(h', h'.comments[i].postedFor.value, h'.comments[i].summary)
    {
      if i < |h.comments| {
        assert Reports(h, h.comments[i].postedFor.value, h.comments[i].summary);
      }
    }
  }

  /** Steps that touch neither git nor the comments. */
  lemma QuietStep(h: Hub, h': Hub)
    requires Inv(h) && SameGraph(h, h') && h'.comments == h.comments && |h'.pulls| <= 1
    requires RunOk(h')
    ensures Inv(h')
  {
    GraphStays(h, h');
    AskedStays(h, h');
    CommentsStay(h, h');
  }

  /** A look at the pull request before the push keeps the run in order, whether it goes on, fails or ends there. */
  lemma LookKeepsRun(h: Hub, h': Hub, pc: Pc)
    requires RunOk(h) && h.run.Some? && (h.run.value.pc.Begin? || h.run.value.pc.Found?)
    requires SameGraph(h, h') && h'.run == Some(h.run.value.(pc := pc)) && |h'.pulls| == |h.pulls|
    requires pc.Found? || pc.Checked? || pc.Failed? || (pc.Done? && h.run.value.kind.Initial?)
    requires SeenOk(h, pc)
    ensures RunOk(h')
  {
    assert LocalOk(h', h'.run.value);
  }

  lemma LookedUpKeepsInv(h: Hub, ok: bool)
    requires Inv(h) && h.run.Some? && (h.run.value.pc.Begin? || h.run.value.pc.Found?)
    ensures Inv(Next(h, ok))
  {
    var h' := Next(h, ok);
    LookKeepsRun(h, h', h'.run.value.pc);
    QuietStep(h, h');
  }

  lemma PushedKeepsInv(h: Hub, ok: bool)
    requires Inv(h) && h.run.Some? && h.run.value.pc.Pushed?
    ensures Inv(Next(h, ok))
  {
    QuietStep(h, Next(h, ok));
  }

  lemma AdvanceKeepsInv(h: Hub, ok: bool)
    requires Inv(h) && h.run.Some?
    ensures Inv(Next(h, ok))
  {
    match h.run.value.pc
    case Checked(existing) => CheckedKeepsInv(h, existing, ok);
    case Fetched(existing, remote) => PushKeepsInv(h, existing, remote, ok);
    case Created(pull, source) =>
      CreatedKeepsRun(h, pull, source, ok);
      QuietStep(h, Next(h, ok));
    case Uncommented(pull, source) => PostKeepsInv(h, pull, source, ok);
    case Pushed(_, _) => PushedKeepsInv(h, ok);
    case Done(_) =>
    case Failed =>
    case _ => LookedUpKeepsInv(h, ok);
  }

  lemma CheckedKeepsInv(h: Hub, existing: Option<Seen>, ok: bool)
    requires Inv(h) && h.run.Some? && h.run.value.pc == Checked(existing)
    ensures Inv(Next(h, ok))
  {
    var h' := Next(h, ok);
    if h'.run.value.pc.Fetched? && h.branch.Some? {
      assert IsAncestor(h.commits, h.branch.value, h.branch.value);
    }
    QuietStep(h, h');
  }

  lemma RefusedKeepsRun(h: Hub)
    requires Inv(h) && h.run.Some? && h.run.value.pc.Fetched?
    ensures RunOk(At(h, Failed)) && SameGraph(h, At(h, Failed))
  {
  }

  /** The published revision was found on the branch. */
  lemma FoundKeepsRun(h: Hub, existing: Option<Seen>, remote: Id, c: Id)
    requires Inv(h) && h.run.Some? && h.run.value.pc == Fetched(existing, Some(remote)) && h.run.value.kind.Revision?
    requires IsAncestor(h.commits, h.run.value.kind.head, remote)
    requires FindKeyed(h.commits, h.run.value.kind.head, remote, h.run.value.key, |h.commits|) == Some(c)
    ensures RunOk(At(h, Pushed(existing, c))) && SameGraph(h, At(h, Pushed(existing, c)))
  {
    RemoteIsPublic(h, remote, c);
    assert h.commits[c].key == h.run.value.key;
    assert SourceOk(h, h.run.value, c);
  }

  /** The push did not happen: it was refused, or the published revision was found. */
  lemma NoPushKeepsRun(h: Hub, existing: Option<Seen>, remote: Option<Id>, ok: bool)
    requires Inv(h) && h.run.Some? && h.run.value.pc == Fetched(existing, remote)
    requires Next(h, ok) != Land(h, existing)
    ensures RunOk(Next(h, ok)) && SameGraph(h, Next(h, ok))
    ensures Next(h, ok).comments == h.comments && Next(h, ok).pulls == h.pulls
  {
    if Next(h, ok) == At(h, Failed) {
      RefusedKeepsRun(h);
    } else {
      var c := Next(h, ok).run.value.pc.source;
      FoundKeepsRun(h, existing, remote.value, c);
    }
  }

  lemma PushKeepsInv(h: Hub, existing: Option<Seen>, remote: Option<Id>, ok: bool)
    requires Inv(h) && h.run.Some? && h.run.value.pc == Fetched(existing, remote)
    ensures Inv(Next(h, ok))
  {
    if Next(h, ok) == Land(h, existing) {
      LandKeepsInv(h, existing);
    } else {
      NoPushKeepsRun(h, existing, remote, ok);
      QuietStep(h, Next(h, ok));
    }
  }

  lemma RemoteIsPublic(h: Hub, remote: Id, c: Id)
    requires Inv(h) && h.branch.Some? && remote < |h.commits| && c < |h.commits|
    requires IsAncestor(h.commits, remote, h.branch.value) && IsAncestor(h.commits, c, remote)
    ensures Public(h, c)
  {
    AncestorTransitive(h.commits, c, remote, h.branch.value);
    if c == h.branch.value {
      assert Public(h, c);
    }
  }

  lemma CreatedKeepsRun(h: Hub, pull: nat, source: Id, ok: bool)
    requires Inv(h) && h.run.Some? && h.run.value.pc == Created(pull, source)
    ensures RunOk(Next(h, ok))
  {
    var h' := Next(h, ok);
    var run := h.run.value;
    if run.kind.Revision? {
      assert SourceOk(h', h'.run.value, source);
      if Mentioned(h.comments, pull, run.key) {
        assert Commented(h', pull, run.key);
      }
    }
  }

  lemma PostKeepsInv(h: Hub, pull: nat, source: Id, ok: bool)
    requires Inv(h) && h.run.Some? && h.run.value.pc == Uncommented(pull, source)
    ensures Inv(Next(h, ok))
  {
    var h' := Next(h, ok);
    var run := h.run.value;
    GraphStays(h, h');
    AskedStays(h, h');
    if h'.run.value.pc.Done? {
      assert Reports(h, run.key, h.commits[source].summary);
      CommentAdded(h, h');
      assert SourceOk(h', h'.run.value, source);
      assert h'.comments[|h.comments|].pull == pull;
      assert Commented(h', pull, run.key);
    } else {
      CommentsStay(h, h');
    }
  }

  lemma StepKeepsInv(h: Hub, a: Action)
    requires Inv(h)
    ensures Inv(Apply(h, a))
  {
    match a
    case Ask(key) => AskKeepsInv(h, key);
    case StartRevision(_, _, _) => StartKeepsInv(h, a);
    case StartInitial(_, _) => StartKeepsInv(h, a);
    case Advance(ok) => if h.run.Some? { AdvanceKeepsInv(h, ok); }
    case Crash => QuietStep(h, Apply(h, a));
    case HumanCommit(others, summary) => HumanCommitKeepsInv(h, others, summary);
    case HumanPull(number, become) => HumanPullKeepsInv(h, number, become);
    case HumanComment(number, mentions) => HumanCommentKeepsInv(h, number, mentions);
  }

  lemma {:induction false} ExecKeepsInv(h: Hub, actions: seq<Action>)
    requires Inv(h)
    ensures Inv(Exec(h, actions))
    decreases |actions|
  {
    if actions != [] {
      StepKeepsInv(h, actions[0]);
      ExecKeepsInv(Apply(h, actions[0]), actions[1..]);
    }
  }
}
