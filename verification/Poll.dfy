/**
 The loop body of `poll` in `agricola/service.py`: snapshot the labels of one change, open its
 tracking issue, request propagations, advance the cursor. It may stop before any statement
 that changes state.
 */
module Poll {
  import opened Wrappers
  import opened Text
  import opened Models
  import opened Labels
  import opened Ledger

  const OVERLAP := 3600
  const LOOKBACK := 900

  /**
   The label resolution of each change, as the host has it at one moment. Events after the merge do not
   count for the labels, but current labels and all events decide whether actors could be verified.
   */
  datatype Facts = Facts(resolve: Change -> LabelResolution)

  /** `issues` holds the marker of every tracking issue, in order of creation. */
  datatype World = World(ledger: LedgerState, issues: seq<string>)

  datatype Request = Request(source: Source, target: string, actor: string, key: string)

  /** `finished` tells that the loop ran to its end; only then are the requests returned. */
  datatype Progress = Progress(world: World, requests: seq<Request>, finished: bool)

  /** The same merged pull request, maybe with other labels. */
  predicate SamePull(c: Change, d: Change) {
    c.repo == d.repo && c.number == d.number && c.sha == d.sha && c.mergedAt == d.mergedAt
  }

  function Marker(c: Change): string {
    "<!-- agricola:source=" + c.repo + "#" + Decimal(c.number) + " -->"
  }

  predicate Agricola(name: string) {
    StartsWith(Lower(name), PREFIX)
  }

  /** The label resolution of one change, with the error for labels whose actors cannot be read. */
  function ResolveChange(m: Manifest, events: seq<LabelEvent>, c: Change): LabelResolution {
    var r := Resolution(events, c.mergedAt, m);
    if (exists i :: 0 <= i < |c.labels| && Agricola(c.labels[i]))
       && !(exists i :: 0 <= i < |events| && Agricola(events[i].name))
    then r.(errors := r.errors + ["could not verify merge-time label actors"]) else r
  }

  /** The facts as the host has them; label events are keyed by pull request number. */
  function HostFacts(m: Manifest, events: map<nat, seq<LabelEvent>>): Facts {
    Facts((c: Change) => ResolveChange(m, if c.number in events then events[c.number] else [], c))
  }

  predicate Suppressed(r: LabelResolution) {
    r.disabled && r.errors == [] && r.notes == []
  }

  predicate Tracked(w: World, c: Change) {
    Marker(c) in w.issues
  }

  /** `cursor_store.load()`. */
  function Load(w: World, now: int): World {
    if w.ledger.cursor.Some? then w else w.(ledger := w.ledger.(cursor := Some(now - LOOKBACK)))
  }

  function Cursor(w: World): int {
    if w.ledger.cursor.Some? then w.ledger.cursor.value else 0
  }

  function Track(w: World, c: Change, r: LabelResolution): World {
    if Suppressed(r) || Tracked(w, c) then w else w.(issues := w.issues + [Marker(c)])
  }

  /** `Cursor.advance`. */
  function Advance(w: World, c: Change): World {
    w.(ledger := w.ledger.(cursor := Some(if Cursor(w) >= c.mergedAt then Cursor(w) else c.mergedAt)))
  }

  function Decided(st: LedgerState, c: Change, target: string): (r: bool)
  {
    var e := Read(st, c.repo, c.number);
    e.Some? && exists i :: 0 <= i < |e.value.decisions| && e.value.decisions[i].target == target
  }

  /** `_requests_for_targets`. */
  function RequestsFor(st: LedgerState, c: Change, targets: seq<string>, actors: map<string, string>): (r: seq<Request>)
    ensures forall q :: q in r <==>
      exists t :: t in targets && !Decided(st, c, t) && q == RequestFor(c, t, actors)
  {
    if targets == [] then []
    else
      (if Decided(st, c, targets[0]) then [] else [RequestFor(c, targets[0], actors)])
      + RequestsFor(st, c, targets[1..], actors)
  }

  function RequestFor(c: Change, t: string, actors: map<string, string>): Request {
    Request(ChangeSource(c), t, if t in actors then actors[t] else "", PropagateKey(c, t))
  }

  function Propagations(w: World, c: Change, r: LabelResolution): seq<Request> {
    if Tracked(w, c) && !r.disabled && r.errors == [] then RequestsFor(w.ledger, c, r.targets, r.actors) else []
  }

  predicate Snapshots(f: Facts, w: World, c: Change) {
    Ensure(w.ledger, c, Some(f.resolve(c).labels)).Success?
  }

  /**
   The world after `k` of the three state-changing statements of the loop body: the label
   snapshot, the tracking issue, the cursor.
   */
  function After(f: Facts, w: World, c: Change, k: nat): World
    requires Snapshots(f, w, c)
  {
    var w1 := w.(ledger := Ensure(w.ledger, c, Some(f.resolve(c).labels)).value.0);
    var w2 := Track(w1, c, f.resolve(c));
    if k == 0 then w else if k == 1 then w1 else if k == 2 then w2 else Advance(w2, c)
  }

  // ---------------------------------------------------------------- what one body leaves

  /** The change has its label snapshot, and its tracking issue unless it needs none. */
  ghost predicate Handled(f: Facts, w: World, c: Change) {
    && (var e := Read(w.ledger, c.repo, c.number); e.Some? && SameSource(e.value, c))
    && (Tracked(w, c) || Suppressed(f.resolve(c)))
  }

  /** The next poll lists every change merged at or after `Cursor(w) - OVERLAP`. */
  ghost predicate InWindow(w: World, c: Change) {
    c.mergedAt >= Cursor(w) - OVERLAP
  }

  ghost predicate WorldOk(w: World) {
    ValidEntries(w.ledger) && Distinct(w.issues) && w.ledger.cursor.Some?
  }

  /** What one step leaves behind: issues and entries only grow, the cursor never moves back. */
  ghost predicate Later(w: World, w': World) {
    Extends(w.ledger, w'.ledger) && w.issues <= w'.issues && Cursor(w) <= Cursor(w')
  }

  lemma LaterTransitive(a: World, b: World, c: World)
    requires Later(a, b) && Later(b, c)
    ensures Later(a, c)
  {
    ExtendsTransitive(a.ledger, b.ledger, c.ledger);
  }

  lemma HandledStays(f: Facts, w: World, w': World, c: Change)
    requires Handled(f, w, c) && Later(w, w')
    ensures Handled(f, w', c)
  {
    var path := PathFor(c.repo, c.number);
    assert EntryExtends(w.ledger.entries[path], w'.ledger.entries[path]);
    if Tracked(w, c) {
      var i :| 0 <= i < |w.issues| && w.issues[i] == Marker(c);
      assert w'.issues[i] == Marker(c);
    }
  }

  /** No step of the body takes anything back. */
  lemma BodyKeeps(f: Facts, w: World, c: Change, k: nat)
    requires WorldOk(w) && Snapshots(f, w, c) && k <= 3
    ensures WorldOk(After(f, w, c, k)) && Later(w, After(f, w, c, k))
  {
    var labels := Some(f.resolve(c).labels);
    EnsureKeepsHistory(w.ledger, c, labels);
    CursorKept(w.ledger, c, labels);
  }

  /** A loop body, complete or not. */
  lemma BodyHandles(f: Facts, w: World, c: Change, k: nat)
    requires WorldOk(w) && Snapshots(f, w, c) && k <= 3
    ensures WorldOk(After(f, w, c, k)) && Later(w, After(f, w, c, k))
    ensures k < 3 ==> Cursor(After(f, w, c, k)) == Cursor(w)
    ensures k == 3 ==>
      && Handled(f, After(f, w, c, k), c)
      && Cursor(After(f, w, c, k)) == (if Cursor(w) >= c.mergedAt then Cursor(w) else c.mergedAt)
  {
    var labels := Some(f.resolve(c).labels);
    BodyKeeps(f, w, c, k);
    EnsureOnce(w.ledger, c, labels);
    CursorKept(w.ledger, c, labels);
    var w1 := After(f, w, c, 1);
    var w2 := After(f, w, c, 2);
    if !Suppressed(f.resolve(c)) && !Tracked(w1, c) {
      assert w2.issues[|w1.issues|] == Marker(c);
    }
  }

  lemma CursorKept(st: LedgerState, c: Change, labels: Option<seq<string>>)
    requires Ensure(st, c, labels).Success?
    ensures Ensure(st, c, labels).value.0.cursor == st.cursor
  {
  }

  /** What a loop body does, as far as the loop depends on it. */
  ghost predicate BodyGood(f: Facts, w: World, c: Change, k: nat, w': World) {
    && WorldOk(w') && Later(w, w')
    && (k < 3 ==> Cursor(w') == Cursor(w))
    && (k == 3 ==> Handled(f, w', c) && Cursor(w') == (if Cursor(w) >= c.mergedAt then Cursor(w) else c.mergedAt))
  }

  lemma BodyIsGood(f: Facts, w: World, c: Change, k: nat)
    requires WorldOk(w) && Snapshots(f, w, c) && k <= 3
    ensures BodyGood(f, w, c, k, After(f, w, c, k))
  {
    BodyHandles(f, w, c, k);
  }

  // ---------------------------------------------------------------- requests

  lemma UndecidedEarlier(w: World, w': World, c: Change, t: string)
    requires Later(w, w') && !Decided(w'.ledger, c, t)
    ensures !Decided(w.ledger, c, t)
  {
    var path := PathFor(c.repo, c.number);
    if path in w.ledger.entries {
      assert EntryExtends(w.ledger.entries[path], w'.ledger.entries[path]);
    }
  }

  /** `t` is selected for `c`, and nothing is decided about it yet. */
  ghost predicate Open(f: Facts, st: LedgerState, c: Change, t: string) {
    && !f.resolve(c).disabled && f.resolve(c).errors == [] && t in f.resolve(c).targets
    && !Decided(st, c, t)
  }

  lemma HeadRequests(f: Facts, w: World, c: Change, t: string)
    requires WorldOk(w) && Snapshots(f, w, c) && Open(f, After(f, w, c, 3).ledger, c, t)
    ensures RequestFor(c, t, f.resolve(c).actors) in Propagations(After(f, w, c, 2), c, f.resolve(c))
  {
    BodyHandles(f, w, c, 3);
    assert Tracked(After(f, w, c, 2), c);
  }

  /** Every selected target of every change is a PR-enabled SDK with an authorised actor. */
  ghost predicate Sound(f: Facts, m: Manifest) {
    forall c: Change, t: string :: SoundFor(f.resolve(c), m, t)
  }

  ghost predicate SoundFor(r: LabelResolution, m: Manifest, t: string) {
    t in r.targets ==> IsPrSdk(m, t) && t in r.actors && Authorized(m, r.actors[t])
  }

  lemma HostFactsAreSound(m: Manifest, events: map<nat, seq<LabelEvent>>)
    requires ValidManifest(m)
    ensures Sound(HostFacts(m, events), m)
  {
    forall c: Change, t: string ensures SoundFor(HostFacts(m, events).resolve(c), m, t)
    {
      TargetsExactlySelected(if c.number in events then events[c.number] else [], c.mergedAt, m, t);
    }
  }

  lemma RequestNames(c: Change, t: string, actors: map<string, string>)
    requires t in actors
    ensures RequestFor(c, t, actors).target == t && RequestFor(c, t, actors).actor == actors[t]
  {
  }

  lemma HeadIsAuthorized(m: Manifest, w: World, c: Change, r: LabelResolution, q: Request)
    requires q in Propagations(w, c, r) && forall t :: SoundFor(r, m, t)
    ensures Authorized(m, q.actor) && IsPrSdk(m, q.target)
  {
    assert q in RequestsFor(w.ledger, c, r.targets, r.actors);
    var t :| t in r.targets && q == RequestFor(c, t, r.actors);
    assert SoundFor(r, m, t);
    RequestNames(c, t, r.actors);
  }

  // ---------------------------------------------------------------- in place

  class Host {
    var world: World

    constructor (initial: World)
      ensures world == initial
    {
      world := initial;
    }

    /** The loop body: label snapshot, tracking issue and cursor; fewer when the budget runs out. */
    method Body(f: Facts, c: Change, budget: nat) returns (asked: seq<Request>)
      requires Snapshots(f, world, c)
      modifies this
      ensures world == After(f, old(world), c, if budget < 3 then budget else 3)
      ensures budget >= 3 ==> asked == Propagations(After(f, old(world), c, 2), c, f.resolve(c))
    {
      asked := [];
      var resolution := f.resolve(c);
      if budget == 0 { return; }
      world := world.(ledger := Ensure(world.ledger, c, Some(resolution.labels)).value.0);
      if budget == 1 { return; }
      world := Track(world, c, resolution);
      if budget == 2 { return; }
      asked := Propagations(world, c, resolution);
      world := Advance(world, c);
    }
  }
}
