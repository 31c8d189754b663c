/**
 `analyze_deltas` of `agricola/audit.py`: observations of all targets are grouped by fingerprint.
 Summaries, evidence and the list of errors are not part of this model.
 */
module Clustering {
  import opened Text

  const CAPABILITY := "capability:"
  const SEMANTIC := "semantic:"

  datatype Observation = Observation(fingerprint: string, passed: bool)

  /** `broken`: the snapshot has errors. `semantic`: the fingerprints of the completed review. */
  datatype Snapshot = Snapshot(
    target: string, capabilities: set<string>, observations: seq<Observation>,
    reviewed: bool, semantic: seq<string>, broken: bool)

  datatype Group = Group(affected: set<string>, clean: set<string>)

  datatype Draft = Draft(fingerprint: string, affected: seq<string>, clean: seq<string>, notReported: seq<string>)

  type Groups = map<string, Group>

  // ---------------------------------------------------------------- the declarative rule

  predicate CanonicalPassed(canonical: Snapshot, fp: string) {
    exists i :: 0 <= i < |canonical.observations| && canonical.observations[i] == Observation(fp, true)
  }

  predicate Lacks(canonical: Snapshot, t: Snapshot, fp: string) {
    !t.broken && CAPABILITY <= fp && fp[|CAPABILITY|..] in canonical.capabilities
      && fp[|CAPABILITY|..] !in t.capabilities
  }

  predicate Breaks(canonical: Snapshot, t: Snapshot, fp: string) {
    !t.broken && Observation(fp, false) in t.observations && CanonicalPassed(canonical, fp)
  }

  predicate Reports(t: Snapshot, fp: string) {
    t.reviewed && fp in t.semantic
  }

  /** Targets that lack the operation, fail the check the reference passes, or were reported by their review. */
  function AffectedBy(canonical: Snapshot, targets: seq<Snapshot>, fp: string): set<string> {
    set i | 0 <= i < |targets| &&
      (Lacks(canonical, targets[i], fp) || Breaks(canonical, targets[i], fp)
        || Reports(targets[i], fp)) :: targets[i].target
  }

  function LackedBy(canonical: Snapshot, targets: seq<Snapshot>, fp: string): set<string> {
    set i | 0 <= i < |targets| && Lacks(canonical, targets[i], fp) :: targets[i].target
  }

  function BrokenBy(canonical: Snapshot, targets: seq<Snapshot>, fp: string): set<string> {
    set i | 0 <= i < |targets| && Breaks(canonical, targets[i], fp) :: targets[i].target
  }

  function ReportedBy(targets: seq<Snapshot>, fp: string): set<string> {
    set i | 0 <= i < |targets| && Reports(targets[i], fp) :: targets[i].target
  }

  function DeclaredBy(targets: seq<Snapshot>, capability: string): set<string> {
    set i | 0 <= i < |targets| && !targets[i].broken && capability in targets[i].capabilities :: targets[i].target
  }

  function PassedBy(targets: seq<Snapshot>, fp: string): set<string> {
    set i | 0 <= i < |targets| && !targets[i].broken
      && Observation(fp, true) in targets[i].observations :: targets[i].target
  }

  function ReviewedOf(targets: seq<Snapshot>): set<string> {
    set i | 0 <= i < |targets| && targets[i].reviewed :: targets[i].target
  }

  function CapabilityClean(canonical: Snapshot, targets: seq<Snapshot>, fp: string): set<string> {
    if LackedBy(canonical, targets, fp) != {} then DeclaredBy(targets, fp[|CAPABILITY|..]) else {}
  }

  /** Targets listed as clean: those that declare the operation, or pass the check; none for review findings. */
  function CleanFor(canonical: Snapshot, targets: seq<Snapshot>, fp: string): set<string> {
    if CAPABILITY <= fp then CapabilityClean(canonical, targets, fp)
    else if BrokenBy(canonical, targets, fp) != {} then PassedBy(targets, fp)
    else {}
  }

  // ---------------------------------------------------------------- grouping

  /** `groups.setdefault(fp, ...).affected.add(name)`. */
  function Affect(groups: Groups, fp: string, name: string): Groups {
    var group := if fp in groups then groups[fp] else Group({}, {});
    groups[fp := group.(affected := group.affected + {name})]
  }

  function AffectedIn(groups: Groups, fp: string): set<string> {
    if fp in groups then groups[fp].affected else {}
  }

  function CleanIn(groups: Groups, fp: string): set<string> {
    if fp in groups then groups[fp].clean else {}
  }

  /** A group exists exactly when somebody is affected. */
  ghost predicate NonEmpty(groups: Groups) {
    forall fp :: fp in groups ==> groups[fp].affected != {}
  }

  lemma AffectedAfter(groups: Groups, fp: string, name: string, f: string)
    requires NonEmpty(groups)
    ensures NonEmpty(Affect(groups, fp, name))
    ensures AffectedIn(Affect(groups, fp, name), f) == AffectedIn(groups, f) + if f == fp then {name} else {}
    ensures CleanIn(Affect(groups, fp, name), f) == CleanIn(groups, f)
  {
  }

  /** `groups` is `base` with more affected targets. */
  ghost predicate Grown(groups: Groups, base: Groups, added: string -> set<string>) {
    && NonEmpty(groups)
    && (forall f :: AffectedIn(groups, f) == AffectedIn(base, f) + added(f))
    && (forall f :: CleanIn(groups, f) == CleanIn(base, f))
  }

  lemma GrownByOne(groups: Groups, base: Groups, added: string -> set<string>, fp: string, name: string,
    added': string -> set<string>)
    requires Grown(groups, base, added)
    requires forall f :: added'(f) == added(f) + if f == fp then {name} else {}
    ensures Grown(Affect(groups, fp, name), base, added')
  {
    forall f
      ensures AffectedIn(Affect(groups, fp, name), f) == AffectedIn(base, f) + added'(f)
      ensures CleanIn(Affect(groups, fp, name), f) == CleanIn(base, f)
    {
      AffectedAfter(groups, fp, name, f);
    }
    AffectedAfter(groups, fp, name, fp);
  }

  /** Sorted members of a set. */
  method Sorted(s: set<string>) returns (r: seq<string>)
    ensures Ascending(r) && forall x :: x in r <==> x in s
  {
    r := [];
    var todo := s;
    while todo != {}
      invariant Ascending(r) && todo <= s && forall x :: x in r <==> x in s - todo
      decreases todo
    {
      var x :| x in todo;
      r := Insert(x, r);
      todo := todo - {x};
    }
  }

  /** The capability groups. */
  method CapabilityGroups(canonical: Snapshot, targets: seq<Snapshot>) returns (groups: Groups)
    ensures NonEmpty(groups)
    ensures forall f :: AffectedIn(groups, f) == LackedBy(canonical, targets, f)
    ensures forall f :: CleanIn(groups, f) == CapabilityClean(canonical, targets, f)
  {
    var capabilities := Sorted(canonical.capabilities);
    AscendingIsDistinct(capabilities);
    groups := map[];
    for i := 0 to |capabilities|
      invariant NonEmpty(groups)
      invariant forall f :: f in groups ==> CAPABILITY <= f && f[|CAPABILITY|..] in capabilities[..i]
      invariant forall k :: 0 <= k < i ==>
        AffectedIn(groups, CAPABILITY + capabilities[k]) == LackedBy(canonical, targets, CAPABILITY + capabilities[k])
      invariant forall f :: f in groups ==> groups[f].clean == DeclaredBy(targets, f[|CAPABILITY|..])
    {
      var fp := CAPABILITY + capabilities[i];
      assert fp[|CAPABILITY|..] == capabilities[i];
      assert fp !in groups;
      var affected := LackedBy(canonical, targets, fp);
      if affected != {} {
        groups := groups[fp := Group(affected, DeclaredBy(targets, capabilities[i]))];
      }
      forall k | 0 <= k < i ensures CAPABILITY + capabilities[k] != fp {
        assert (CAPABILITY + capabilities[k])[|CAPABILITY|..] == capabilities[k];
      }
    }
    forall f ensures AffectedIn(groups, f) == LackedBy(canonical, targets, f) {
      if CAPABILITY <= f && f[|CAPABILITY|..] in canonical.capabilities {
        var k :| 0 <= k < |capabilities| && capabilities[k] == f[|CAPABILITY|..];
        assert f == CAPABILITY + capabilities[k];
      }
    }
  }

  // ---------------------------------------------------------------- failed checks

  /** The first `i` targets and the first `j` observations of the next one. */
  function BrokenSoFar(canonical: Snapshot, targets: seq<Snapshot>, i: nat, j: nat, f: string): set<string>
    requires i <= |targets| && (j > 0 ==> i < |targets| && j <= |targets[i].observations|)
  {
    BrokenBy(canonical, targets[..i], f) +
    if j > 0 && !targets[i].broken && Observation(f, false) in targets[i].observations[..j]
      && CanonicalPassed(canonical, f)
    then {targets[i].target} else {}
  }

  lemma BrokenStep(canonical: Snapshot, targets: seq<Snapshot>, i: nat, j: nat, f: string)
    requires i < |targets| && j < |targets[i].observations|
    ensures var o := targets[i].observations[j];
      BrokenSoFar(canonical, targets, i, j + 1, f) == BrokenSoFar(canonical, targets, i, j, f) +
        if !targets[i].broken && !o.passed && CanonicalPassed(canonical, o.fingerprint) && f == o.fingerprint
        then {targets[i].target} else {}
  {
    var os := targets[i].observations;
    assert os[..j + 1] == os[..j] + [os[j]];
  }

  lemma BrokenTargetDone(canonical: Snapshot, targets: seq<Snapshot>, i: nat, f: string)
    requires i < |targets|
    ensures BrokenSoFar(canonical, targets, i, |targets[i].observations|, f) ==
      BrokenSoFar(canonical, targets, i + 1, 0, f)
    ensures targets[i].broken ==>
      BrokenSoFar(canonical, targets, i, 0, f) == BrokenSoFar(canonical, targets, i + 1, 0, f)
  {
    var os, t := targets[i].observations, targets[i];
    assert os[..|os|] == os;
    assert targets[..i + 1] == targets[..i] + [t];
    BrokenLast(canonical, targets[..i], t, f);
  }

  lemma BrokenLast(canonical: Snapshot, ts: seq<Snapshot>, t: Snapshot, f: string)
    ensures BrokenBy(canonical, ts + [t], f) ==
      BrokenBy(canonical, ts, f) + if Breaks(canonical, t, f) then {t.target} else {}
  {
    var all := ts + [t];
    assert forall i :: 0 <= i < |ts| ==> all[i] == ts[i];
    assert all[|ts|] == t;
    forall x | x in BrokenBy(canonical, ts, f) ensures x in BrokenBy(canonical, all, f) {
      var i :| 0 <= i < |ts| && Breaks(canonical, ts[i], f) && ts[i].target == x;
      assert Breaks(canonical, all[i], f);
    }
    if Breaks(canonical, t, f) {
      assert Breaks(canonical, all[|ts|], f);
      assert t.target in BrokenBy(canonical, all, f);
    }
  }

  function BrokenAt(canonical: Snapshot, targets: seq<Snapshot>, i: nat, j: nat): string -> set<string>
    requires i <= |targets| && (j > 0 ==> i < |targets| && j <= |targets[i].observations|)
  {
    f => BrokenSoFar(canonical, targets, i, j, f)
  }

  predicate IsBreak(canonical: Snapshot, t: Snapshot, o: Observation) {
    !t.broken && !o.passed && CanonicalPassed(canonical, o.fingerprint)
  }

  lemma GrownObservation(canonical: Snapshot, targets: seq<Snapshot>, i: nat, j: nat, groups: Groups, base: Groups)
    requires i < |targets| && j < |targets[i].observations| && Grown(groups, base, BrokenAt(canonical, targets, i, j))
    ensures var t := targets[i]; var o := t.observations[j];
      Grown(if IsBreak(canonical, t, o) then Affect(groups, o.fingerprint, t.target) else groups,
            base, BrokenAt(canonical, targets, i, j + 1))
  {
    var t := targets[i];
    var o := t.observations[j];
    forall f { BrokenStep(canonical, targets, i, j, f); }
    if IsBreak(canonical, t, o) {
      GrownByOne(groups, base, BrokenAt(canonical, targets, i, j), o.fingerprint, t.target,
                 BrokenAt(canonical, targets, i, j + 1));
    }
  }

  lemma GrownTarget(canonical: Snapshot, targets: seq<Snapshot>, i: nat, j: nat, groups: Groups, base: Groups)
    requires i < |targets| && j <= |targets[i].observations| && Grown(groups, base, BrokenAt(canonical, targets, i, j))
    requires targets[i].broken || j == |targets[i].observations|
    requires targets[i].broken ==> j == 0
    ensures Grown(groups, base, BrokenAt(canonical, targets, i + 1, 0))
  {
    forall f ensures BrokenAt(canonical, targets, i + 1, 0)(f) == BrokenAt(canonical, targets, i, j)(f) {
      BrokenTargetDone(canonical, targets, i, f);
    }
  }

  lemma GrownDone(canonical: Snapshot, targets: seq<Snapshot>, groups: Groups, base: Groups)
    requires Grown(groups, base, BrokenAt(canonical, targets, |targets|, 0))
    ensures Grown(groups, base, f => BrokenBy(canonical, targets, f))
  {
    assert targets[..|targets|] == targets;
    forall f ensures BrokenAt(canonical, targets, |targets|, 0)(f) == BrokenBy(canonical, targets, f) {
    }
  }

  method BrokenGroups(canonical: Snapshot, targets: seq<Snapshot>, base: Groups) returns (groups: Groups)
    requires NonEmpty(base)
    ensures Grown(groups, base, f => BrokenBy(canonical, targets, f))
  {
    groups := base;
    for i := 0 to |targets|
      invariant Grown(groups, base, BrokenAt(canonical, targets, i, 0))
    {
      var t := targets[i];
      if t.broken {
        GrownTarget(canonical, targets, i, 0, groups, base);
        continue;
      }
      for j := 0 to |t.observations|
        invariant Grown(groups, base, BrokenAt(canonical, targets, i, j))
      {
        var o := t.observations[j];
        GrownObservation(canonical, targets, i, j, groups, base);
        if !o.passed && CanonicalPassed(canonical, o.fingerprint) {
          groups := Affect(groups, o.fingerprint, t.target);
        }
      }
      GrownTarget(canonical, targets, i, |t.observations|, groups, base);
    }
    GrownDone(canonical, targets, groups, base);
  }

  // ---------------------------------------------------------------- clean targets of failed checks

  function WithPassed(targets: seq<Snapshot>, f: string, g: Group): Group {
    if CAPABILITY <= f then g else g.(clean := g.clean + PassedBy(targets, f))
  }

  /** The loop that adds the targets passing a check to its group. */
  method AddClean(targets: seq<Snapshot>, base: Groups) returns (groups: Groups)
    ensures groups.Keys == base.Keys
    ensures forall f :: f in base ==> groups[f] == WithPassed(targets, f, base[f])
  {
    groups := base;
    var todo := base.Keys;
    while todo != {}
      invariant groups.Keys == base.Keys && todo <= base.Keys
      invariant forall f :: f in base ==> groups[f] == if f in todo then base[f] else WithPassed(targets, f, base[f])
      decreases todo
    {
      var f :| f in todo;
      todo := todo - {f};
      if CAPABILITY <= f {
        continue;
      }
      groups := groups[f := groups[f].(clean := groups[f].clean + PassedBy(targets, f))];
    }
  }

  // ---------------------------------------------------------------- review findings

  function ReportedSoFar(targets: seq<Snapshot>, i: nat, j: nat, f: string): set<string>
    requires i <= |targets| && (j > 0 ==> i < |targets| && j <= |targets[i].semantic|)
  {
    ReportedBy(targets[..i], f) +
    if j > 0 && targets[i].reviewed && f in targets[i].semantic[..j] then {targets[i].target} else {}
  }

  function ReportedAt(targets: seq<Snapshot>, i: nat, j: nat): string -> set<string>
    requires i <= |targets| && (j > 0 ==> i < |targets| && j <= |targets[i].semantic|)
  {
    f => ReportedSoFar(targets, i, j, f)
  }

  lemma ReportedLast(ts: seq<Snapshot>, t: Snapshot, f: string)
    ensures ReportedBy(ts + [t], f) == ReportedBy(ts, f) + if Reports(t, f) then {t.target} else {}
  {
    var all := ts + [t];
    assert forall i :: 0 <= i < |ts| ==> all[i] == ts[i];
    assert all[|ts|] == t;
    forall x | x in ReportedBy(ts, f) ensures x in ReportedBy(all, f) {
      var i :| 0 <= i < |ts| && Reports(ts[i], f) && ts[i].target == x;
      assert Reports(all[i], f);
    }
    if Reports(t, f) {
      assert Reports(all[|ts|], f);
      assert t.target in ReportedBy(all, f);
    }
  }

  lemma GrownFinding(targets: seq<Snapshot>, i: nat, j: nat, groups: Groups, base: Groups)
    requires i < |targets| && targets[i].reviewed && j < |targets[i].semantic|
    requires Grown(groups, base, ReportedAt(targets, i, j))
    ensures Grown(Affect(groups, targets[i].semantic[j], targets[i].target), base, ReportedAt(targets, i, j + 1))
  {
    var fs := targets[i].semantic;
    assert fs[..j + 1] == fs[..j] + [fs[j]];
    GrownByOne(groups, base, ReportedAt(targets, i, j), fs[j], targets[i].target, ReportedAt(targets, i, j + 1));
  }

  lemma GrownReview(targets: seq<Snapshot>, i: nat, j: nat, groups: Groups, base: Groups)
    requires i < |targets| && j <= |targets[i].semantic| && Grown(groups, base, ReportedAt(targets, i, j))
    requires if targets[i].reviewed then j == |targets[i].semantic| else j == 0
    ensures Grown(groups, base, ReportedAt(targets, i + 1, 0))
  {
    var fs, t := targets[i].semantic, targets[i];
    assert fs[..|fs|] == fs;
    assert targets[..i + 1] == targets[..i] + [t];
    forall f ensures ReportedAt(targets, i + 1, 0)(f) == ReportedAt(targets, i, j)(f) {
      ReportedLast(targets[..i], t, f);
    }
  }

  lemma GrownReviews(targets: seq<Snapshot>, groups: Groups, base: Groups)
    requires Grown(groups, base, ReportedAt(targets, |targets|, 0))
    ensures Grown(groups, base, f => ReportedBy(targets, f))
  {
    assert targets[..|targets|] == targets;
    forall f ensures ReportedAt(targets, |targets|, 0)(f) == ReportedBy(targets, f) {
    }
  }

  method ReviewGroups(targets: seq<Snapshot>, base: Groups) returns (groups: Groups)
    requires NonEmpty(base)
    ensures Grown(groups, base, f => ReportedBy(targets, f))
  {
    groups := base;
    for i := 0 to |targets|
      invariant Grown(groups, base, ReportedAt(targets, i, 0))
    {
      var t := targets[i];
      if !t.reviewed {
        GrownReview(targets, i, 0, groups, base);
        continue;
      }
      for j := 0 to |t.semantic|
        invariant Grown(groups, base, ReportedAt(targets, i, j))
      {
        GrownFinding(targets, i, j, groups, base);
        groups := Affect(groups, t.semantic[j], t.target);
      }
      GrownReview(targets, i, |t.semantic|, groups, base);
    }
    GrownReviews(targets, groups, base);
  }

  // ---------------------------------------------------------------- the whole analysis

  /** A draft lists, sorted, exactly the targets the rule names. */
  ghost predicate IsDraft(canonical: Snapshot, targets: seq<Snapshot>, d: Draft) {
    && Ascending(d.affected) && (forall x :: x in d.affected <==> x in AffectedBy(canonical, targets, d.fingerprint))
    && Ascending(d.clean) && (forall x :: x in d.clean <==> x in CleanFor(canonical, targets, d.fingerprint))
    && Ascending(d.notReported)
    && (forall x :: x in d.notReported <==> SEMANTIC <= d.fingerprint && x in ReviewedOf(targets) && x !in d.affected)
  }

  function FingerprintsOf(drafts: seq<Draft>): (r: seq<string>)
    ensures |r| == |drafts| && forall i :: 0 <= i < |r| ==> r[i] == drafts[i].fingerprint
  {
    seq(|drafts|, i requires 0 <= i < |drafts| => drafts[i].fingerprint)
  }

  lemma AffectedIsUnion(canonical: Snapshot, targets: seq<Snapshot>, f: string)
    ensures AffectedBy(canonical, targets, f) ==
      LackedBy(canonical, targets, f) + BrokenBy(canonical, targets, f) + ReportedBy(targets, f)
  {
  }

  /** The groups hold what the rule says. */
  ghost predicate IsGrouping(canonical: Snapshot, targets: seq<Snapshot>, groups: Groups) {
    && NonEmpty(groups)
    && (forall f :: AffectedIn(groups, f) == AffectedBy(canonical, targets, f))
    && (forall f :: CleanIn(groups, f) == CleanFor(canonical, targets, f))
  }

  method GroupDeltas(canonical: Snapshot, targets: seq<Snapshot>) returns (groups: Groups)
    ensures IsGrouping(canonical, targets, groups)
  {
    var lacked := CapabilityGroups(canonical, targets);
    var broken := BrokenGroups(canonical, targets, lacked);
    var cleaned := AddClean(targets, broken);
    groups := ReviewGroups(targets, cleaned);
    forall f
      ensures AffectedIn(groups, f) == AffectedBy(canonical, targets, f)
      ensures CleanIn(groups, f) == CleanFor(canonical, targets, f)
    {
      AffectedIsUnion(canonical, targets, f);
      assert AffectedIn(cleaned, f) == AffectedIn(broken, f);
      assert CleanIn(groups, f) == CleanIn(cleaned, f) && CleanIn(broken, f) == CleanIn(lacked, f);
      assert f in broken <==> AffectedIn(broken, f) != {};
    }
  }

  /** `analyze_deltas`: sorted by fingerprint, one draft for every fingerprint that affects somebody. */
  method AnalyzeDeltas(canonical: Snapshot, targets: seq<Snapshot>) returns (drafts: seq<Draft>)
    ensures Ascending(FingerprintsOf(drafts))
    ensures forall f :: f in FingerprintsOf(drafts) <==> AffectedBy(canonical, targets, f) != {}
    ensures forall i :: 0 <= i < |drafts| ==> IsDraft(canonical, targets, drafts[i])
  {
    var groups := GroupDeltas(canonical, targets);
    var fingerprints := Sorted(groups.Keys);
    drafts := [];
    for i := 0 to |fingerprints|
      invariant FingerprintsOf(drafts) == fingerprints[..i]
      invariant forall k :: 0 <= k < |drafts| ==> IsDraft(canonical, targets, drafts[k])
    {
      var f := fingerprints[i];
      assert f in groups;
      assert AffectedIn(groups, f) == AffectedBy(canonical, targets, f)
        && CleanIn(groups, f) == CleanFor(canonical, targets, f);
      var affected := Sorted(groups[f].affected);
      var clean := Sorted(groups[f].clean);
      var notReported := Sorted(if SEMANTIC <= f then ReviewedOf(targets) - groups[f].affected else {});
      var d := Draft(f, affected, clean, notReported);
      assert IsDraft(canonical, targets, d);
      assert FingerprintsOf(drafts + [d]) == FingerprintsOf(drafts) + [f];
      drafts := drafts + [d];
    }
    assert fingerprints[..|fingerprints|] == fingerprints;
    forall f ensures f in FingerprintsOf(drafts) <==> AffectedBy(canonical, targets, f) != {} {
      assert f in groups <==> AffectedIn(groups, f) != {};
    }
  }

  // ---------------------------------------------------------------- affected and clean

  /** Validated snapshots of distinct targets, with the prefixes their producers give fingerprints. */
  ghost predicate ValidSnapshots(targets: seq<Snapshot>) {
    && (forall i, j :: 0 <= i < j < |targets| ==> targets[i].target != targets[j].target)
    && (forall i, k, l :: 0 <= i < |targets| && 0 <= k < l < |targets[i].observations| ==>
          targets[i].observations[k].fingerprint != targets[i].observations[l].fingerprint)
    && (forall i, k :: 0 <= i < |targets| && 0 <= k < |targets[i].observations| ==>
          "vector:" <= targets[i].observations[k].fingerprint)
    && (forall i, k :: 0 <= i < |targets| && 0 <= k < |targets[i].semantic| ==> SEMANTIC <= targets[i].semantic[k])
  }

  lemma PrefixesDiffer(f: string)
    ensures !("vector:" <= f && SEMANTIC <= f) && !("vector:" <= f && CAPABILITY <= f)
      && !(SEMANTIC <= f && CAPABILITY <= f)
  {
    if f != "" {
      assert "vector:" <= f ==> f[0] == 'v';
      assert SEMANTIC <= f ==> f[0] == 's';
      assert CAPABILITY <= f ==> f[0] == 'c';
    }
  }

  /** No target is both affected and clean, and each finding has one kind of cause. */
  lemma AffectedAreNotClean(canonical: Snapshot, targets: seq<Snapshot>, f: string)
    requires ValidSnapshots(targets)
    ensures AffectedBy(canonical, targets, f) !! CleanFor(canonical, targets, f)
    ensures AffectedBy(canonical, targets, f) ==
      if CAPABILITY <= f then LackedBy(canonical, targets, f)
      else if SEMANTIC <= f then ReportedBy(targets, f) else BrokenBy(canonical, targets, f)
  {
    PrefixesDiffer(f);
    AffectedIsUnion(canonical, targets, f);
    forall i, j | 0 <= i < |targets| && 0 <= j < |targets| && targets[i].target == targets[j].target
      ensures i == j
    {
    }
    forall i | 0 <= i < |targets|
      ensures Breaks(canonical, targets[i], f) ==> "vector:" <= f
      ensures Reports(targets[i], f) ==> SEMANTIC <= f
      ensures !(Observation(f, true) in targets[i].observations && Observation(f, false) in targets[i].observations)
    {
    }
  }
}
