/** The verdict on one pair run: which differences are excused, and when an excuse is stale. */
module PairVerdict {
  import opened Wrappers
  import opened Text
  import opened StableJson
  import opened PairCompare

  datatype Step = Step(name: string, body: Tree)

  /** An expected failure. Without fields it excuses whole steps. */
  datatype Excuse = Excuse(client: string, server: string, steps: seq<string>, fields: Option<seq<Path>>,
    reason: string)

  /** What a run produced: all its steps, those before a failed one, or an error outside the steps. */
  datatype Actual =
    | Completed(steps: seq<Step>)
    | StepFailed(done: seq<Step>, failed: string)
    | Crashed

  datatype Verdict = Pass | Fail | Xfail(reasons: seq<string>) | Xpass(reasons: seq<string>)

  type Pairs = map<string, (Tree, Tree)>

  predicate Applies(e: Excuse, client: string, server: string) {
    (e.client == "*" || e.client == client) && (e.server == "*" || e.server == server)
  }

  /** `expected_failures`. */
  function Applicable(all: seq<Excuse>, client: string, server: string): (r: seq<Excuse>)
    ensures forall e :: e in r <==> e in all && Applies(e, client, server)
  {
    if all == [] then []
    else
      assert all == [all[0]] + all[1..];
      (if Applies(all[0], client, server) then [all[0]] else []) + Applicable(all[1..], client, server)
  }

  function Names(steps: seq<Step>): (r: seq<string>)
    ensures |r| == |steps| && forall i :: 0 <= i < |r| ==> r[i] == steps[i].name
  {
    seq(|steps|, i requires 0 <= i < |steps| => steps[i].name)
  }

  /** The dictionary of step pairs; a repeated name keeps the last pair. */
  function PairsOf(expected: seq<Step>, steps: seq<Step>): Pairs
    requires |steps| <= |expected|
    decreases |steps|
  {
    if steps == [] then map[]
    else
      var n := |steps| - 1;
      PairsOf(expected, steps[..n])[expected[n].name := (expected[n].body, steps[n].body)]
  }

  predicate Differs(pairs: Pairs, failed: Option<string>, s: string) {
    failed == Some(s) || (s in pairs && pairs[s].0 != pairs[s].1)
  }

  function Covering(entries: seq<Excuse>, s: string): (r: seq<Excuse>)
    ensures forall e :: e in r <==> e in entries && s in e.steps
  {
    if entries == [] then []
    else
      assert entries == [entries[0]] + entries[1..];
      (if s in entries[0].steps then [entries[0]] else []) + Covering(entries[1..], s)
  }

  function FieldsOf(entries: seq<Excuse>): (r: seq<Path>)
    ensures forall f :: f in r <==>
      exists i :: 0 <= i < |entries| && entries[i].fields.Some? && f in entries[i].fields.value
  {
    if entries == [] then []
    else
      assert forall i :: 1 <= i < |entries| ==> entries[i] == entries[1..][i - 1];
      (if entries[0].fields.Some? then entries[0].fields.value else []) + FieldsOf(entries[1..])
  }

  predicate CoversWhole(entries: seq<Excuse>) {
    exists i :: 0 <= i < |entries| && entries[i].fields.None?
  }

  /** A difference in `s` that the covering entries account for. */
  predicate Excused(entries: seq<Excuse>, pairs: Pairs, failed: Option<string>, s: string) {
    var covering := Covering(entries, s);
    && covering != []
    && (|| CoversWhole(covering)
        || (&& failed != Some(s) && s in pairs
            && WithoutFields(pairs[s].0, FieldsOf(covering)) == WithoutFields(pairs[s].1, FieldsOf(covering))))
  }

  predicate FieldDiffers(pairs: Pairs, s: string, fields: seq<Path>) {
    s in pairs &&
    exists j :: 0 <= j < |fields| && FieldValue(pairs[s].0, fields[j]) != FieldValue(pairs[s].1, fields[j])
  }

  /** What confirms an entry: one of its steps failed, or differs where it says. */
  predicate ConfirmedAt(e: Excuse, pairs: Pairs, failed: Option<string>, s: string) {
    Differs(pairs, failed, s) && (e.fields.None? || failed == Some(s) || FieldDiffers(pairs, s, e.fields.value))
  }

  predicate Confirmed(e: Excuse, pairs: Pairs, failed: Option<string>) {
    exists i :: 0 <= i < |e.steps| && ConfirmedAt(e, pairs, failed, e.steps[i])
  }

  /** All its steps ran, and nothing confirms it. */
  predicate Stale(e: Excuse, pairs: Pairs, failed: Option<string>, ran: seq<string>) {
    (forall i :: 0 <= i < |e.steps| ==> e.steps[i] in ran) && !Confirmed(e, pairs, failed)
  }

  function StaleReasons(entries: seq<Excuse>, pairs: Pairs, failed: Option<string>, ran: seq<string>): seq<string> {
    if entries == [] then []
    else
      var n := |entries| - 1;
      StaleReasons(entries[..n], pairs, failed, ran)
      + if Stale(entries[n], pairs, failed, ran) then [entries[n].reason] else []
  }

  function ConfirmedReasons(entries: seq<Excuse>, pairs: Pairs, failed: Option<string>): seq<string> {
    if entries == [] then []
    else
      var n := |entries| - 1;
      ConfirmedReasons(entries[..n], pairs, failed)
      + if Confirmed(entries[n], pairs, failed) then [entries[n].reason] else []
  }

  /** The run stopped at a snapshot's step, or went through all of them. */
  predicate Follows(expected: seq<Step>, steps: seq<Step>, failed: Option<string>) {
    if failed.Some? then
      |steps| < |expected| && Names(steps) + [failed.value] == Names(expected)[..|steps| + 1]
    else Names(steps) == Names(expected)
  }

  ghost predicate AllExcused(entries: seq<Excuse>, pairs: Pairs, failed: Option<string>) {
    forall s :: Differs(pairs, failed, s) ==> Excused(entries, pairs, failed, s)
  }

  ghost predicate AnyDiffers(pairs: Pairs, failed: Option<string>) {
    exists s :: Differs(pairs, failed, s)
  }

  /** The verdict on a run that follows its snapshot. */
  ghost function Judge(entries: seq<Excuse>, pairs: Pairs, failed: Option<string>, ran: seq<string>): Verdict {
    if !AllExcused(entries, pairs, failed) then Fail
    else if StaleReasons(entries, pairs, failed, ran) != [] then Xpass(StaleReasons(entries, pairs, failed, ran))
    else if AnyDiffers(pairs, failed) then Xfail(ConfirmedReasons(entries, pairs, failed))
    else Pass
  }

  function StepsOf(actual: Actual): seq<Step>
    requires !actual.Crashed?
  {
    if actual.Completed? then actual.steps else actual.done
  }

  function FailedOf(actual: Actual): Option<string>
    requires !actual.Crashed?
  {
    if actual.Completed? then None else Some(actual.failed)
  }

  function Ran(actual: Actual): seq<string>
    requires !actual.Crashed?
  {
    Names(StepsOf(actual)) + if actual.StepFailed? then [actual.failed] else []
  }

  ghost function VerdictOf(
      all: seq<Excuse>, expected: Option<seq<Step>>, actual: Actual, client: string, server: string): Verdict {
    if expected.None? || actual.Crashed? then Fail
    else if !Follows(expected.value, StepsOf(actual), FailedOf(actual)) then Fail
    else
      Judge(Applicable(all, client, server), PairsOf(expected.value, StepsOf(actual)), FailedOf(actual), Ran(actual))
  }

  // ---------------------------------------------------------------- in steps

  lemma {:induction false} PairsKeys(expected: seq<Step>, steps: seq<Step>, s: string)
    requires |steps| <= |expected|
    ensures s in PairsOf(expected, steps) <==> exists i :: 0 <= i < |steps| && expected[i].name == s
    decreases |steps|
  {
    if steps != [] {
      PairsKeys(expected, steps[..|steps| - 1], s);
    }
  }

  method PairUp(expected: seq<Step>, steps: seq<Step>) returns (pairs: Pairs)
    requires |steps| <= |expected|
    ensures pairs == PairsOf(expected, steps)
  {
    pairs := map[];
    for i := 0 to |steps|
      invariant pairs == PairsOf(expected, steps[..i])
    {
      assert steps[..i + 1][..i] == steps[..i];
      pairs := pairs[expected[i].name := (expected[i].body, steps[i].body)];
    }
    assert steps[..|steps|] == steps;
  }

  /** The steps that differ: the failed one first, then those whose pair is not equal. */
  method Differing(expected: seq<Step>, steps: seq<Step>, failed: Option<string>, pairs: Pairs)
    returns (differing: seq<string>)
    requires |steps| <= |expected| && pairs == PairsOf(expected, steps)
    ensures forall s :: s in differing <==> Differs(pairs, failed, s)
  {
    differing := if failed.Some? then [failed.value] else [];
    for i := 0 to |steps|
      invariant forall s :: s in differing <==>
        failed == Some(s) || (exists k :: 0 <= k < i && expected[k].name == s && s in pairs && pairs[s].0 != pairs[s].1)
    {
      var step := expected[i].name;
      PairsKeys(expected, steps, step);
      if pairs[step].0 != pairs[step].1 {
        differing := differing + [step];
      }
    }
    forall s | Differs(pairs, failed, s) ensures s in differing {
      PairsKeys(expected, steps, s);
    }
  }

  /** The loop that looks for differences no entry accounts for. */
  method Unexpected(entries: seq<Excuse>, pairs: Pairs, failed: Option<string>, differing: seq<string>)
    returns (found: bool)
    requires forall s :: s in differing <==> Differs(pairs, failed, s)
    ensures found <==> !AllExcused(entries, pairs, failed)
  {
    found := false;
    for i := 0 to |differing|
      invariant found <==> exists k :: 0 <= k < i && !Excused(entries, pairs, failed, differing[k])
    {
      var step := differing[i];
      assert Differs(pairs, failed, step);
      var covering := Covering(entries, step);
      if covering == [] {
        found := true;
      } else if !CoversWhole(covering) {
        if failed == Some(step) {
          found := true;
          continue;
        }
        var fields := FieldsOf(covering);
        var left := RemoveFields(pairs[step].0, fields);
        var right := RemoveFields(pairs[step].1, fields);
        if left != right {
          found := true;
        }
      }
    }
    if !found {
      forall s | Differs(pairs, failed, s) ensures Excused(entries, pairs, failed, s) {
        assert s in differing;
      }
    }
  }

  /** `compare`. */
  method Compare(all: seq<Excuse>, expected: Option<seq<Step>>, actual: Actual, client: string, server: string)
    returns (verdict: Verdict)
    ensures verdict == VerdictOf(all, expected, actual, client, server)
  {
    if expected.None? || actual.Crashed? {
      return Fail;
    }
    var steps, failed, ran := StepsOf(actual), FailedOf(actual), Ran(actual);
    if !Follows(expected.value, steps, failed) {
      return Fail;
    }
    var pairs := PairUp(expected.value, steps);
    var differing := Differing(expected.value, steps, failed, pairs);
    var entries := Applicable(all, client, server);
    var unexpected := Unexpected(entries, pairs, failed, differing);
    if unexpected {
      return Fail;
    }
    var stale, confirmed := [], [];
    for i := 0 to |entries|
      invariant stale == StaleReasons(entries[..i], pairs, failed, ran)
      invariant confirmed == ConfirmedReasons(entries[..i], pairs, failed)
    {
      assert entries[..i + 1][..i] == entries[..i];
      if Stale(entries[i], pairs, failed, ran) {
        stale := stale + [entries[i].reason];
      }
      if Confirmed(entries[i], pairs, failed) {
        confirmed := confirmed + [entries[i].reason];
      }
    }
    assert entries[..|entries|] == entries;
    assert AnyDiffers(pairs, failed) <==> differing != [] by {
      if differing != [] {
        assert differing[0] in differing;
      }
    }
    if stale != [] {
      return Xpass(stale);
    }
    if differing != [] {
      return Xfail(confirmed);
    }
    return Pass;
  }

  // ---------------------------------------------------------------- what a verdict means

  lemma {:induction false} SomeConfirmed(entries: seq<Excuse>, pairs: Pairs, failed: Option<string>, e: Excuse)
    requires e in entries && Confirmed(e, pairs, failed)
    ensures ConfirmedReasons(entries, pairs, failed) != []
  {
    var n := |entries| - 1;
    assert entries == entries[..n] + [entries[n]];
    if e != entries[n] {
      SomeConfirmed(entries[..n], pairs, failed, e);
    }
  }

  lemma {:induction false} SomeStale(
      entries: seq<Excuse>, pairs: Pairs, failed: Option<string>, ran: seq<string>)
    ensures StaleReasons(entries, pairs, failed, ran) != [] <==>
      exists e :: e in entries && Stale(e, pairs, failed, ran)
  {
    if entries != [] {
      var n := |entries| - 1;
      assert entries == entries[..n] + [entries[n]];
      SomeStale(entries[..n], pairs, failed, ran);
    }
  }

  /** An excused difference confirms one of the entries that cover it. */
  lemma ExcuseIsConfirmed(entries: seq<Excuse>, pairs: Pairs, failed: Option<string>, s: string) returns (e: Excuse)
    requires Differs(pairs, failed, s) && Excused(entries, pairs, failed, s)
    ensures e in entries && s in e.steps && Confirmed(e, pairs, failed)
  {
    var covering := Covering(entries, s);
    if CoversWhole(covering) {
      var i :| 0 <= i < |covering| && covering[i].fields.None?;
      e := covering[i];
      assert e in covering;
    } else {
      var fields := FieldsOf(covering);
      if forall j :: 0 <= j < |fields| ==> FieldValue(pairs[s].0, fields[j]) == FieldValue(pairs[s].1, fields[j]) {
        SameExceptFields(pairs[s].0, pairs[s].1, fields);
        assert false;
      }
      var j :| 0 <= j < |fields| && FieldValue(pairs[s].0, fields[j]) != FieldValue(pairs[s].1, fields[j]);
      assert fields[j] in fields;
      var i :| 0 <= i < |covering| && covering[i].fields.Some? && fields[j] in covering[i].fields.value;
      e := covering[i];
      assert e in covering;
    }
    assert ConfirmedAt(e, pairs, failed, s);
    var k :| 0 <= k < |e.steps| && e.steps[k] == s;
    assert ConfirmedAt(e, pairs, failed, e.steps[k]);
  }

  /** An applicable entry that excuses what differs at `f` in `s`: the whole step, or a field that meets `f`. */
  ghost predicate Accounts(e: Excuse, s: string, f: seq<string>) {
    s in e.steps && (e.fields.None? || exists g :: g in e.fields.value && !Apart(f, g))
  }

  /** The run failed in `s`, or its snapshot differs at the field `f`. */
  ghost predicate DiffersAt(pairs: Pairs, failed: Option<string>, s: string, f: seq<string>) {
    failed == Some(s) || (s in pairs && FieldValue(pairs[s].0, f) != FieldValue(pairs[s].1, f))
  }

  /** Some entry accounts for the difference; for a failed step, an entry for whole steps. */
  ghost predicate IsAccountedFor(entries: seq<Excuse>, failed: Option<string>, s: string, f: seq<string>) {
    exists e :: e in entries && Accounts(e, s, f) && (failed == Some(s) ==> e.fields.None?)
  }

  /** Every difference is accounted for at the place where it is. */
  lemma DifferenceIsCovered(entries: seq<Excuse>, pairs: Pairs, failed: Option<string>, s: string, f: seq<string>)
    requires Excused(entries, pairs, failed, s) && DiffersAt(pairs, failed, s, f)
    ensures IsAccountedFor(entries, failed, s, f)
  {
    var covering := Covering(entries, s);
    if CoversWhole(covering) {
      var i :| 0 <= i < |covering| && covering[i].fields.None?;
      assert covering[i] in covering && Accounts(covering[i], s, f);
    } else {
      var fields := FieldsOf(covering);
      if forall i :: 0 <= i < |fields| ==> Apart(f, fields[i]) {
        SameApart(pairs[s].0, pairs[s].1, fields, f);
        assert false;
      }
      var j :| 0 <= j < |fields| && !Apart(f, fields[j]);
      assert fields[j] in fields;
      var i :| 0 <= i < |covering| && covering[i].fields.Some? && fields[j] in covering[i].fields.value;
      assert covering[i] in covering && Accounts(covering[i], s, f);
    }
  }

  ghost predicate CoveredEverywhere(entries: seq<Excuse>, pairs: Pairs, failed: Option<string>) {
    forall s, f :: DiffersAt(pairs, failed, s, f) ==> IsAccountedFor(entries, failed, s, f)
  }

  lemma ExcusedIsCovered(entries: seq<Excuse>, pairs: Pairs, failed: Option<string>)
    requires AllExcused(entries, pairs, failed)
    ensures CoveredEverywhere(entries, pairs, failed)
  {
    forall s, f | DiffersAt(pairs, failed, s, f) ensures IsAccountedFor(entries, failed, s, f) {
      assert Differs(pairs, failed, s);
      DifferenceIsCovered(entries, pairs, failed, s, f);
    }
  }

  lemma ExcusedHasReasons(entries: seq<Excuse>, pairs: Pairs, failed: Option<string>)
    requires AllExcused(entries, pairs, failed) && AnyDiffers(pairs, failed)
    ensures ConfirmedReasons(entries, pairs, failed) != []
    ensures exists e :: e in entries && Confirmed(e, pairs, failed)
  {
    var s :| Differs(pairs, failed, s);
    var e := ExcuseIsConfirmed(entries, pairs, failed, s);
    SomeConfirmed(entries, pairs, failed, e);
  }

  /** `xfail` is exact about excuses: every difference is covered by an applicable entry, and an entry is confirmed. */
  lemma XfailIsExcused(all: seq<Excuse>, expected: seq<Step>, actual: Actual, client: string, server: string)
    requires VerdictOf(all, Some(expected), actual, client, server).Xfail?
    ensures !actual.Crashed? && Follows(expected, StepsOf(actual), FailedOf(actual))
    ensures var pairs, failed := PairsOf(expected, StepsOf(actual)), FailedOf(actual);
            var entries := Applicable(all, client, server);
      && CoveredEverywhere(entries, pairs, failed)
      && exists e :: e in entries && Confirmed(e, pairs, failed)
    ensures VerdictOf(all, Some(expected), actual, client, server).reasons != []
  {
    var pairs, failed := PairsOf(expected, StepsOf(actual)), FailedOf(actual);
    ExcusedIsCovered(Applicable(all, client, server), pairs, failed);
    ExcusedHasReasons(Applicable(all, client, server), pairs, failed);
  }

  lemma {:induction false} PairsAt(expected: seq<Step>, steps: seq<Step>, i: nat)
    requires |steps| <= |expected| && i < |steps| && Distinct(Names(expected))
    ensures expected[i].name in PairsOf(expected, steps)
    ensures PairsOf(expected, steps)[expected[i].name] == (expected[i].body, steps[i].body)
    decreases |steps|
  {
    var n := |steps| - 1;
    if i < n {
      assert Names(expected)[i] != Names(expected)[n];
      PairsAt(expected, steps[..n], i);
    }
  }

  /** `pass` means the snapshot was met in full and no applicable entry claims that one of the steps that ran fails. */
  lemma PassExactlyWhen(all: seq<Excuse>, expected: seq<Step>, actual: Actual, client: string, server: string)
    requires Distinct(Names(expected))
    ensures VerdictOf(all, Some(expected), actual, client, server) == Pass <==>
      && actual == Completed(expected)
      && forall e :: e in all && Applies(e, client, server) ==>
        exists i :: 0 <= i < |e.steps| && e.steps[i] !in Names(expected)
  {
    if !actual.Crashed? && Follows(expected, StepsOf(actual), FailedOf(actual)) {
      var pairs, failed := PairsOf(expected, StepsOf(actual)), FailedOf(actual);
      var entries := Applicable(all, client, server);
      SomeStale(entries, pairs, failed, Ran(actual));
      if actual == Completed(expected) {
        NothingDiffers(expected);
      } else if !AnyDiffers(pairs, failed) {
        assert !Differs(pairs, failed, if actual.StepFailed? then actual.failed else "");
        SameSteps(expected, actual.steps);
      }
    }
  }

  lemma NothingDiffers(expected: seq<Step>)
    requires Distinct(Names(expected))
    ensures !AnyDiffers(PairsOf(expected, expected), None)
  {
    forall s ensures !Differs(PairsOf(expected, expected), None, s) {
      PairsKeys(expected, expected, s);
      if i :| 0 <= i < |expected| && expected[i].name == s {
        PairsAt(expected, expected, i);
      }
    }
  }

  lemma SameSteps(expected: seq<Step>, steps: seq<Step>)
    requires Distinct(Names(expected)) && Names(steps) == Names(expected) && |steps| == |expected|
    requires !AnyDiffers(PairsOf(expected, steps), None)
    ensures steps == expected
  {
    forall i | 0 <= i < |steps| ensures steps[i] == expected[i] {
      PairsAt(expected, steps, i);
      assert !Differs(PairsOf(expected, steps), None, expected[i].name);
      assert Names(steps)[i] == Names(expected)[i];
    }
  }
}
