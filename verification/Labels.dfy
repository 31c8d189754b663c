/** `resolve_labels` of `agricola/commands.py`: the authorised labels as they stood at merge time. */
module Labels {
  import opened Wrappers
  import opened Text
  import opened Models

  datatype LabelEvent = LabelEvent(added: bool, name: string, actor: string, at: int)

  datatype LabelResolution = LabelResolution(
    labels: seq<string>, targets: seq<string>, affected: seq<string>, actors: map<string, string>,
    disabled: bool, errors: seq<string>, notes: seq<string>)

  const PREFIX := "agricola:"
  const ALL := "agricola:all"
  const NONE := "agricola:none"

  predicate Eligible(e: LabelEvent, mergedAt: int) {
    StartsWith(Lower(e.name), PREFIX) && e.at <= mergedAt
  }

  // ---------------------------------------------------------------- last events

  ghost predicate InOrder(s: seq<LabelEvent>) {
    forall i, j :: 0 <= i < j < |s| ==> s[i].at <= s[j].at
  }

  /** Stable insertion: after every event that is not later. */
  function InsertEvent(s: seq<LabelEvent>, e: LabelEvent): (r: seq<LabelEvent>)
    requires InOrder(s)
    ensures InOrder(r) && forall x :: x in r ==> x in s || x == e
  {
    if s == [] || s[|s| - 1].at <= e.at then s + [e]
    else
      var rest := InsertEvent(s[..|s| - 1], e);
      assert InOrder(rest + [s[|s| - 1]]) by {
        forall i | 0 <= i < |rest| ensures rest[i].at <= s[|s| - 1].at {
          assert rest[i] in rest;
          assert rest[i] in s[..|s| - 1] || rest[i] == e;
        }
      }
      rest + [s[|s| - 1]]
  }

  /** `sorted(events, key=created_at)`. */
  function SortEvents(events: seq<LabelEvent>): (r: seq<LabelEvent>)
    ensures InOrder(r)
  {
    if events == [] then [] else InsertEvent(SortEvents(events[..|events| - 1]), events[|events| - 1])
  }

  /** The dictionary after the loop has seen `s`. */
  function LastEvents(s: seq<LabelEvent>, mergedAt: int): map<string, LabelEvent> {
    if s == [] then map[]
    else
      var e := s[|s| - 1];
      var before := LastEvents(s[..|s| - 1], mergedAt);
      if Eligible(e, mergedAt) then before[Lower(e.name) := e] else before
  }

  function Overtake(m: map<string, LabelEvent>, e: LabelEvent, mergedAt: int): map<string, LabelEvent> {
    var l := Lower(e.name);
    if Eligible(e, mergedAt) && (l !in m || m[l].at <= e.at) then m[l := e] else m
  }

  /** Inserting an event in time order overtakes exactly the events that are not later. */
  lemma {:induction false} InsertOvertakes(s: seq<LabelEvent>, e: LabelEvent, mergedAt: int)
    requires InOrder(s)
    ensures LastEvents(InsertEvent(s, e), mergedAt) == Overtake(LastEvents(s, mergedAt), e, mergedAt)
  {
    if s == [] || s[|s| - 1].at <= e.at {
      assert (s + [e])[..|s|] == s;
      LastEventsBounded(s, mergedAt);
    } else {
      var prefix, last := s[..|s| - 1], s[|s| - 1];
      InsertOvertakes(prefix, e, mergedAt);
      var r := InsertEvent(s, e);
      assert r[..|r| - 1] == InsertEvent(prefix, e) && r[|r| - 1] == last;
    }
  }

  lemma {:induction false} LastEventsBounded(s: seq<LabelEvent>, mergedAt: int)
    requires InOrder(s)
    ensures forall l :: l in LastEvents(s, mergedAt) ==>
      LastEvents(s, mergedAt)[l] in s && s[|s| - 1].at >= LastEvents(s, mergedAt)[l].at
  {
    if s != [] {
      LastEventsBounded(s[..|s| - 1], mergedAt);
    }
  }

  /** Event `i` is the last one for `label` at or before the merge; ties go to the later listing. */
  ghost predicate IsLast(events: seq<LabelEvent>, mergedAt: int, name: string, i: nat) {
    && i < |events| && Eligible(events[i], mergedAt) && Lower(events[i].name) == name
    && forall j: nat :: j < |events| && Eligible(events[j], mergedAt) && Lower(events[j].name) == name ==>
         events[j].at < events[i].at || (events[j].at == events[i].at && j <= i)
  }

  /** Where the last event for `name` is, if there is any. */
  ghost function LastIndex(events: seq<LabelEvent>, mergedAt: int, name: string): (r: Option<nat>)
    ensures r.Some? ==> IsLast(events, mergedAt, name, r.value)
    ensures r.None? ==> forall j: nat :: j < |events| ==>
      !(Eligible(events[j], mergedAt) && Lower(events[j].name) == name)
  {
    if events == [] then None
    else
      var n := |events| - 1;
      var before := LastIndex(events[..n], mergedAt, name);
      if Eligible(events[n], mergedAt) && Lower(events[n].name) == name
         && (before.None? || events[before.value].at <= events[n].at)
      then Some(n) else before
  }

  lemma LastIsUnique(events: seq<LabelEvent>, mergedAt: int, name: string, i: nat, j: nat)
    requires IsLast(events, mergedAt, name, i) && IsLast(events, mergedAt, name, j)
    ensures i == j
  {
  }

  /** The dictionary has the last of the events for `name`, if there is any. */
  ghost predicate HoldsLast(m: map<string, LabelEvent>, events: seq<LabelEvent>, mergedAt: int, name: string) {
    var i := LastIndex(events, mergedAt, name);
    if i.Some? then name in m && m[name] == events[i.value] else name !in m
  }

  lemma OneMoreEvent(m: map<string, LabelEvent>, events: seq<LabelEvent>, mergedAt: int, name: string)
    requires events != [] && HoldsLast(m, events[..|events| - 1], mergedAt, name)
    ensures HoldsLast(Overtake(m, events[|events| - 1], mergedAt), events, mergedAt, name)
  {
  }

  /** The loop keeps, for each label, its last event. */
  lemma {:induction false} LastEventsAreLast(events: seq<LabelEvent>, mergedAt: int, name: string)
    ensures HoldsLast(LastEvents(SortEvents(events), mergedAt), events, mergedAt, name)
  {
    if events != [] {
      var n := |events| - 1;
      LastEventsAreLast(events[..n], mergedAt, name);
      InsertOvertakes(SortEvents(events[..n]), events[n], mergedAt);
      OneMoreEvent(LastEvents(SortEvents(events[..n]), mergedAt), events, mergedAt, name);
    }
  }

  /** The declarative rule: the label's last event at or before merge is a maintainer adding it. */
  ghost predicate Counts(events: seq<LabelEvent>, mergedAt: int, m: Manifest, name: string) {
    exists i: nat :: IsLast(events, mergedAt, name, i) && events[i].added && Authorized(m, events[i].actor)
  }

  // ---------------------------------------------------------------- resolution

  function Applied(last: map<string, LabelEvent>, m: Manifest): map<string, LabelEvent> {
    map l | l in last && last[l].added && Authorized(m, last[l].actor) :: last[l]
  }

  predicate Known(m: Manifest, name: string) {
    name == ALL || name == NONE || (StartsWith(name, PREFIX) && IsSdk(m, name[|PREFIX|..]))
  }

  function SdkLabel(sdk: string): string {
    PREFIX + sdk
  }

  function Names(events: seq<LabelEvent>): (r: seq<string>)
    ensures |r| == |events| && forall i :: 0 <= i < |r| ==> r[i] == Lower(events[i].name)
  {
    if events == [] then [] else [Lower(events[0].name)] + Names(events[1..])
  }

  /** The members of `s` that satisfy `keep`, in order. */
  function Keep(s: seq<string>, keep: string -> bool): (r: seq<string>)
    ensures forall x :: x in r <==> x in s && keep(x)
    ensures Ascending(s) ==> Ascending(r)
  {
    if s == [] then []
    else
      var rest := Keep(s[1..], keep);
      if keep(s[0]) then
        assert Ascending(s) ==> Ascending([s[0]] + rest) by {
          if Ascending(s) { AscendingHeadAll(s); AscendingCons(s[0], rest); }
        }
        [s[0]] + rest
      else rest
  }

  /** The actors of the selected targets: a target's own label first, `all` for the others. */
  function TargetActors(applied: map<string, LabelEvent>, m: Manifest): map<string, string> {
    map n | n in PrTargets(m.sdks) && (SdkLabel(n) in applied || ALL in applied)
      :: if SdkLabel(n) in applied then applied[SdkLabel(n)].actor else applied[ALL].actor
  }

  /** Everything after the loop. `sorted(applied)` lists the applied labels among `names`. */
  function Resolve(names: seq<string>, applied: map<string, LabelEvent>, m: Manifest): LabelResolution {
    var labels := Keep(SortUnique(names), l => l in applied);
    var unknown := Keep(labels, l => !Known(m, l));
    var effective := Keep(labels, l => Known(m, l));
    if NONE in applied then
      var conflicts := Keep(effective, l => l != NONE);
      LabelResolution(labels, [], [], map[], true, unknown, conflicts)
    else
      var sdks := SortUnique(SdkNames(m.sdks));
      var affected := Keep(sdks, n => ALL in applied || SdkLabel(n) in applied);
      var actors := TargetActors(applied, m);
      var targets := Keep(sdks, n => n in actors);
      var notify := Keep(sdks, n => !IsPrSdk(m, n) && SdkLabel(n) in applied && SdkLabel(n) != ALL);
      LabelResolution(labels, targets, affected, actors, effective == [], unknown, notify)
  }

  function SdkNames(sdks: seq<Sdk>): (names: seq<string>)
    ensures forall n :: n in names <==> exists i :: 0 <= i < |sdks| && sdks[i].name == n
  {
    if sdks == [] then [] else [sdks[0].name] + SdkNames(sdks[1..])
  }

  function Resolution(events: seq<LabelEvent>, mergedAt: int, m: Manifest): LabelResolution {
    Resolve(Names(SortEvents(events)), Applied(LastEvents(SortEvents(events), mergedAt), m), m)
  }

  method ResolveLabels(events: seq<LabelEvent>, mergedAt: int, m: Manifest) returns (r: LabelResolution)
    ensures r == Resolution(events, mergedAt, m)
  {
    var sorted := SortEvents(events);
    var last: map<string, LabelEvent> := map[];
    for i := 0 to |sorted|
      invariant last == LastEvents(sorted[..i], mergedAt)
    {
      var event := sorted[i];
      var name := Lower(event.name);
      assert sorted[..i + 1][..i] == sorted[..i];
      if !StartsWith(name, PREFIX) || event.at > mergedAt {
        continue;
      }
      last := last[name := event];
    }
    assert sorted[..|sorted|] == sorted;
    r := Resolve(Names(sorted), Applied(last, m), m);
  }

  lemma AppliedCounts(events: seq<LabelEvent>, mergedAt: int, m: Manifest, name: string)
    ensures name in Applied(LastEvents(SortEvents(events), mergedAt), m) <==> Counts(events, mergedAt, m, name)
    ensures Counts(events, mergedAt, m, name) ==> name in Names(SortEvents(events))
  {
    LastEventsAreLast(events, mergedAt, name);
    var i := LastIndex(events, mergedAt, name);
    if Counts(events, mergedAt, m, name) {
      var k: nat :| IsLast(events, mergedAt, name, k) && events[k].added && Authorized(m, events[k].actor);
      LastIsUnique(events, mergedAt, name, k, i.value);
    }
    LastEventsNamed(SortEvents(events), mergedAt);
  }

  lemma NamesPrefix(s: seq<LabelEvent>, name: string)
    requires s != [] && name in Names(s[..|s| - 1])
    ensures name in Names(s)
  {
    var n := |s| - 1;
    var i :| 0 <= i < n && Names(s[..n])[i] == name;
    assert Names(s)[i] == name;
  }

  lemma {:induction false} LastEventsNamed(s: seq<LabelEvent>, mergedAt: int)
    ensures forall l :: l in LastEvents(s, mergedAt) ==> l in Names(s)
    decreases |s|
  {
    if s != [] {
      var n := |s| - 1;
      LastEventsNamed(s[..n], mergedAt);
      assert Names(s)[n] == Lower(s[n].name);
      forall l | l in LastEvents(s[..n], mergedAt) ensures l in Names(s) {
        NamesPrefix(s, l);
      }
    }
  }

  /** A label is reported exactly when the declarative rule says it counts. */
  lemma LabelsExactlyCount(events: seq<LabelEvent>, mergedAt: int, m: Manifest, name: string)
    ensures name in Resolution(events, mergedAt, m).labels <==> Counts(events, mergedAt, m, name)
  {
    AppliedCounts(events, mergedAt, m, name);
  }

  /**
   The targets are exactly the PR-enabled SDKs selected by name or by `all`, `none` empties them,
   and each target has an authorised actor.
   */
  lemma TargetsExactlySelected(events: seq<LabelEvent>, mergedAt: int, m: Manifest, t: string)
    requires ValidManifest(m)
    ensures t in Resolution(events, mergedAt, m).targets <==>
      && !Counts(events, mergedAt, m, NONE) && IsPrSdk(m, t)
      && (Counts(events, mergedAt, m, SdkLabel(t)) || Counts(events, mergedAt, m, ALL))
    ensures t in Resolution(events, mergedAt, m).targets <==> t in Resolution(events, mergedAt, m).actors
    ensures t in Resolution(events, mergedAt, m).actors ==>
      Authorized(m, Resolution(events, mergedAt, m).actors[t])
  {
    AppliedCounts(events, mergedAt, m, NONE);
    AppliedCounts(events, mergedAt, m, ALL);
    AppliedCounts(events, mergedAt, m, SdkLabel(t));
    ResolveTargets(Names(SortEvents(events)), Applied(LastEvents(SortEvents(events), mergedAt), m), m, t);
  }

  lemma ResolveTargets(names: seq<string>, applied: map<string, LabelEvent>, m: Manifest, t: string)
    requires ValidManifest(m) && forall l :: l in applied ==> Authorized(m, applied[l].actor)
    ensures var r := Resolve(names, applied, m);
      && (t in r.targets <==> NONE !in applied && IsPrSdk(m, t) && (SdkLabel(t) in applied || ALL in applied))
      && (t in r.targets <==> t in r.actors)
      && (t in r.actors ==> Authorized(m, r.actors[t]))
  {
    PrTargetIsSdk(m, t);
    var found := FindSdk(m.sdks, t);
    assert found.Some? ==> t in SdkNames(m.sdks);
  }

  /** Propagation is disabled exactly when `none` counts or no known label does. */
  lemma DisabledExactlyWhen(events: seq<LabelEvent>, mergedAt: int, m: Manifest)
    ensures var r := Resolution(events, mergedAt, m);
      && (r.disabled <==> (Counts(events, mergedAt, m, NONE)
                           || forall l :: Counts(events, mergedAt, m, l) ==> !Known(m, l)))
      && (r.errors == [] <==> forall l :: Counts(events, mergedAt, m, l) ==> Known(m, l))
  {
    var r := Resolution(events, mergedAt, m);
    AppliedCounts(events, mergedAt, m, NONE);
    forall l ensures l in r.labels <==> Counts(events, mergedAt, m, l) {
      LabelsExactlyCount(events, mergedAt, m, l);
    }
    var effective := Keep(r.labels, l => Known(m, l));
    assert r.errors != [] ==> r.errors[0] in r.errors;
    assert effective != [] ==> effective[0] in effective;
  }

  lemma AscendingHeadAll(s: seq<string>)
    requires s != [] && Ascending(s)
    ensures forall y :: y in s[1..] ==> Less(s[0], y)
  {
  }

  lemma PrTargetIsSdk(m: Manifest, n: string)
    requires ValidManifest(m)
    ensures n in PrTargets(m.sdks) <==> IsPrSdk(m, n)
  {
    var found := FindSdk(m.sdks, n);
    if found.Some? {
      var i :| 0 <= i < |m.sdks| && m.sdks[i] == found.value;
      assert forall j :: 0 <= j < |m.sdks| && m.sdks[j].name == n ==> j == i;
    }
  }

  lemma OneLaterEvent(events: seq<LabelEvent>, e: LabelEvent, mergedAt: int)
    requires e.at > mergedAt
    ensures LastEvents(SortEvents(events + [e]), mergedAt) == LastEvents(SortEvents(events), mergedAt)
  {
    assert (events + [e])[..|events|] == events;
    InsertOvertakes(SortEvents(events), e, mergedAt);
  }

  lemma {:induction false} LaterEventsIgnored(events: seq<LabelEvent>, later: seq<LabelEvent>, mergedAt: int)
    requires forall i :: 0 <= i < |later| ==> later[i].at > mergedAt
    ensures LastEvents(SortEvents(events + later), mergedAt) == LastEvents(SortEvents(events), mergedAt)
    decreases |later|
  {
    if later == [] {
      assert events + later == events;
    } else {
      var n := |later| - 1;
      assert events + later == (events + later[..n]) + [later[n]];
      LaterEventsIgnored(events, later[..n], mergedAt);
      OneLaterEvent(events + later[..n], later[n], mergedAt);
    }
  }

  /** Events after the merge change nothing in the resolution. */
  lemma LaterEventsChangeNothing(events: seq<LabelEvent>, later: seq<LabelEvent>, mergedAt: int, m: Manifest)
    requires forall i :: 0 <= i < |later| ==> later[i].at > mergedAt
    ensures Resolution(events + later, mergedAt, m) == Resolution(events, mergedAt, m)
  {
    LaterEventsIgnored(events, later, mergedAt);
    LastEventsNamed(SortEvents(events), mergedAt);
    LastEventsNamed(SortEvents(events + later), mergedAt);
    var applied := Applied(LastEvents(SortEvents(events), mergedAt), m);
    SameLabels(Names(SortEvents(events + later)), Names(SortEvents(events)), applied, m);
  }

  lemma SameLabels(names: seq<string>, names': seq<string>, applied: map<string, LabelEvent>, m: Manifest)
    requires forall l :: l in applied ==> l in names && l in names'
    ensures Resolve(names, applied, m) == Resolve(names', applied, m)
  {
    var r, r' := Resolve(names, applied, m), Resolve(names', applied, m);
    AscendingUnique(r.labels, r'.labels);
  }
}
