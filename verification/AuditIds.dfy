/**
 `AuditStore.assign` of `agricola/ledger.py`: finding ids are handed out once per fingerprint and
 numbered within a year. An id stays with its fingerprint over any run of assignments.
 */
module AuditIds {
  import opened Wrappers
  import opened Text
  import opened Models

  // ---------------------------------------------------------------- ids

  /** `FindingId`: `AGR-`, four digits, a dash, at least three digits. */
  predicate IsFindingId(id: string) {
    |id| >= 12 && id[..4] == "AGR-" && AllDigits(id[4..8]) && id[8] == '-' && AllDigits(id[9..])
  }

  function YearPrefix(year: nat): string {
    "AGR-" + Decimal(year) + "-"
  }

  function IdFor(year: nat, n: nat): string {
    YearPrefix(year) + Pad3(n)
  }

  /** `rsplit("-", 1)[-1]`. */
  function AfterLastDash(s: string): (r: string)
    ensures |r| <= |s| && s[|s| - |r|..] == r && '-' !in r
  {
    if s == "" || s[|s| - 1] == '-' then ""
    else
      var r := AfterLastDash(s[..|s| - 1]);
      assert s == s[..|s| - 1] + [s[|s| - 1]];
      assert s[..|s| - 1][|s| - 1 - |r|..] == r;
      r + [s[|s| - 1]]
  }

  lemma {:induction false} AfterLastDashOf(a: string, b: string)
    requires '-' !in b
    ensures AfterLastDash(a + "-" + b) == b
  {
    var s := a + "-" + b;
    if b != "" {
      var n := |b| - 1;
      assert s[..|s| - 1] == a + "-" + b[..n] && s[|s| - 1] == b[n];
      AfterLastDashOf(a, b[..n]);
      assert b == b[..n] + [b[n]];
    } else {
      assert s[|s| - 1] == '-';
    }
  }

  /** The number of an id: the digits after its last dash. */
  function NumberOf(id: string): nat
    requires IsFindingId(id)
  {
    NumberPart(id);
    ParseDecimal(AfterLastDash(id))
  }

  lemma NumberPart(id: string)
    requires IsFindingId(id)
    ensures AfterLastDash(id) == id[9..]
  {
    assert id == id[..8] + "-" + id[9..];
    assert '-' !in id[9..] by {
      assert forall i :: 0 <= i < |id[9..]| ==> IsDigit(id[9..][i]);
    }
    AfterLastDashOf(id[..8], id[9..]);
  }

  lemma DecimalLength(n: nat)
    ensures |Decimal(n)| == 4 <==> 1000 <= n <= 9999
  {
    if n >= 10 {
      assert |Decimal(n)| == 1 + |Decimal(n / 10)|;
      if n >= 100 {
        assert |Decimal(n / 10)| == 1 + |Decimal(n / 10 / 10)|;
        if n >= 1000 {
          assert |Decimal(n / 10 / 10)| == 1 + |Decimal(n / 10 / 10 / 10)|;
        }
      }
    }
  }

  /** The padded number parses back, and the id has the required form, exactly in four-digit years. */
  lemma IdReadsBack(year: nat, n: nat)
    ensures IsFindingId(IdFor(year, n)) <==> 1000 <= year <= 9999
    ensures IsFindingId(IdFor(year, n)) ==> NumberOf(IdFor(year, n)) == n
  {
    var id := IdFor(year, n);
    DecimalLength(year);
    var y, p := Decimal(year), Pad3(n);
    if |y| == 4 {
      assert id[..4] == "AGR-" && id[4..8] == y && id[9..] == p;
      assert id[8] == '-';
      NumberPart(id);
      ParseDecimalOfPad3(n);
    } else if IsFindingId(id) {
      WrongYear(year, n);
      assert false;
    }
  }

  lemma WrongYear(year: nat, n: nat)
    requires |Decimal(year)| != 4
    ensures !IsFindingId(IdFor(year, n))
  {
    var id, y := IdFor(year, n), Decimal(year);
    assert id[4 + |y|] == '-';
    assert |y| > 4 ==> id[8] == y[4];
    assert |y| < 4 && |id| >= 8 ==> id[4..8][|y|] == '-';
  }

  // ---------------------------------------------------------------- assignment

  function Fingerprints(records: seq<FindingRecord>): (r: seq<string>)
    ensures |r| == |records| && forall i :: 0 <= i < |r| ==> r[i] == records[i].fingerprint
  {
    seq(|records|, i requires 0 <= i < |records| => records[i].fingerprint)
  }

  /** The validator of `AuditRegistry` and of its records. */
  ghost predicate ValidRegistry(records: seq<FindingRecord>) {
    && (forall i :: 0 <= i < |records| ==> IsFindingId(records[i].id) && records[i].fingerprint != "")
    && (forall i, j :: 0 <= i < j < |records| ==>
          records[i].id != records[j].id && records[i].fingerprint != records[j].fingerprint)
  }

  /** `by_fingerprint`. */
  function IdMap(records: seq<FindingRecord>): map<string, string> {
    if records == [] then map[]
    else
      var n := |records| - 1;
      IdMap(records[..n])[records[n].fingerprint := records[n].id]
  }

  ghost predicate AllFindingIds(records: seq<FindingRecord>) {
    forall i :: 0 <= i < |records| ==> IsFindingId(records[i].id)
  }

  function HighestNumber(records: seq<FindingRecord>, year: nat): (n: nat)
    requires forall i :: 0 <= i < |records| ==> IsFindingId(records[i].id)
    ensures forall i :: 0 <= i < |records| && YearPrefix(year) <= records[i].id ==> NumberOf(records[i].id) <= n
  {
    if records == [] then 0
    else
      var last := |records| - 1;
      var before := HighestNumber(records[..last], year);
      assert forall i :: 0 <= i < last ==> records[..last][i] == records[i];
      if YearPrefix(year) <= records[last].id && NumberOf(records[last].id) > before
      then NumberOf(records[last].id) else before
  }

  /** The loop of `assign` over sorted fingerprints; `n` is the last number used in `year`. */
  function AddAll(records: seq<FindingRecord>, fps: seq<string>, year: nat, at: int, n: nat): Result<seq<FindingRecord>>
    decreases |fps|
  {
    if fps == [] then Success(records)
    else if fps[0] in Fingerprints(records) then AddAll(records, fps[1..], year, at, n)
    else if fps[0] == "" || !IsFindingId(IdFor(year, n + 1)) then Failure("ValidationError")
    else AddAll(records + [FindingRecord(IdFor(year, n + 1), fps[0], at)], fps[1..], year, at, n + 1)
  }

  function Assigned(records: seq<FindingRecord>, fps: seq<string>, year: nat, at: int): Result<seq<FindingRecord>>
    requires forall i :: 0 <= i < |records| ==> IsFindingId(records[i].id)
  {
    AddAll(records, SortUnique(fps), year, at, HighestNumber(records, year))
  }

  class AuditStore {
    var findings: seq<FindingRecord>

    constructor ()
      ensures findings == []
    {
      findings := [];
    }

    /** The stored registry changes only when the whole call succeeds. */
    method Assign(fingerprints: seq<string>, year: nat, at: int) returns (r: Result<map<string, string>>)
      requires ValidRegistry(findings)
      modifies this
      ensures r.Success? == Assigned(old(findings), fingerprints, year, at).Success?
      ensures r.Success? ==>
        Assigned(old(findings), fingerprints, year, at) == Success(findings) && r.value == IdMap(findings)
      ensures r.Failure? ==> findings == old(findings)
    {
      var records := findings;
      var byFingerprint := IdMap(records);
      var sequence := HighestNumber(records, year);
      var sorted := SortUnique(fingerprints);
      for i := 0 to |sorted|
        invariant findings == old(findings)
        invariant byFingerprint == IdMap(records)
        invariant AddAll(findings, sorted, year, at, HighestNumber(findings, year))
               == AddAll(records, sorted[i..], year, at, sequence)
      {
        var fingerprint := sorted[i];
        assert sorted[i..][0] == fingerprint && sorted[i..][1..] == sorted[i + 1..];
        IdMapKeys(records, fingerprint);
        if fingerprint in byFingerprint {
          continue;
        }
        sequence := sequence + 1;
        var id := IdFor(year, sequence);
        if fingerprint == "" || !IsFindingId(id) {
          return Failure("ValidationError");
        }
        var record := FindingRecord(id, fingerprint, at);
        assert (records + [record])[..|records|] == records;
        records := records + [record];
        byFingerprint := byFingerprint[fingerprint := id];
      }
      if records != findings {
        findings := records;
      }
      return Success(byFingerprint);
    }
  }

  lemma {:induction false} IdMapKeys(records: seq<FindingRecord>, f: string)
    ensures f in IdMap(records) <==> f in Fingerprints(records)
  {
    if records != [] {
      var n := |records| - 1;
      IdMapKeys(records[..n], f);
      assert Fingerprints(records) == Fingerprints(records[..n]) + [records[n].fingerprint];
    }
  }

  // ---------------------------------------------------------------- one call

  /** Every number used in `year` is at most `n`. */
  ghost predicate NumbersUpTo(records: seq<FindingRecord>, year: nat, n: nat) {
    && AllFindingIds(records)
    && forall i :: 0 <= i < |records| && YearPrefix(year) <= records[i].id ==> NumberOf(records[i].id) <= n
  }

  lemma NewIdIsHigher(year: nat, n: nat)
    requires IsFindingId(IdFor(year, n + 1))
    ensures YearPrefix(year) <= IdFor(year, n + 1) && NumberOf(IdFor(year, n + 1)) == n + 1
  {
    IdReadsBack(year, n + 1);
  }

  lemma NewRecordIsValid(records: seq<FindingRecord>, r: FindingRecord)
    requires ValidRegistry(records) && IsFindingId(r.id) && r.fingerprint != ""
      && r.fingerprint !in Fingerprints(records)
    requires forall i :: 0 <= i < |records| ==> records[i].id != r.id
    ensures ValidRegistry(records + [r])
  {
    forall i | 0 <= i < |records| ensures records[i].fingerprint != r.fingerprint {
      assert Fingerprints(records)[i] != r.fingerprint;
    }
  }

  lemma NewIdIsNew(records: seq<FindingRecord>, year: nat, n: nat, f: string, at: int)
    requires ValidRegistry(records) && NumbersUpTo(records, year, n) && IsFindingId(IdFor(year, n + 1))
    requires f != "" && f !in Fingerprints(records)
    ensures var records' := records + [FindingRecord(IdFor(year, n + 1), f, at)];
      ValidRegistry(records') && NumbersUpTo(records', year, n + 1)
  {
    NewIdIsHigher(year, n);
    NewRecordIsValid(records, FindingRecord(IdFor(year, n + 1), f, at));
  }

  /** A call keeps the registry valid and only adds records behind the old ones. */
  lemma {:induction false} AddAllKeepsValid(records: seq<FindingRecord>, fps: seq<string>, year: nat, at: int, n: nat)
    requires ValidRegistry(records) && NumbersUpTo(records, year, n) && AddAll(records, fps, year, at, n).Success?
    ensures var r := AddAll(records, fps, year, at, n).value; ValidRegistry(r) && records <= r
    decreases |fps|
  {
    if fps != [] {
      if fps[0] in Fingerprints(records) {
        AddAllKeepsValid(records, fps[1..], year, at, n);
      } else {
        NewIdIsNew(records, year, n, fps[0], at);
        AddAllKeepsValid(records + [FindingRecord(IdFor(year, n + 1), fps[0], at)], fps[1..], year, at, n + 1);
      }
    }
  }

  lemma AddAllStep(records: seq<FindingRecord>, fps: seq<string>, year: nat, at: int, n: nat)
    returns (more: seq<FindingRecord>, last: nat)
    requires fps != [] && AddAll(records, fps, year, at, n).Success?
    ensures AddAll(records, fps, year, at, n) == AddAll(more, fps[1..], year, at, last)
    ensures (more == records && last == n)
      || (more == records + [FindingRecord(IdFor(year, n + 1), fps[0], at)] && last == n + 1)
  {
    if fps[0] in Fingerprints(records) {
      more, last := records, n;
    } else {
      more, last := records + [FindingRecord(IdFor(year, n + 1), fps[0], at)], n + 1;
    }
  }

  /** The new records are numbered on in order, for the given fingerprints only. */
  lemma {:induction false} AddAllNumbers(
      records: seq<FindingRecord>, fps: seq<string>, year: nat, at: int, n: nat, k: nat)
    requires AddAll(records, fps, year, at, n).Success? && |records| <= k < |AddAll(records, fps, year, at, n).value|
    ensures var r := AddAll(records, fps, year, at, n).value;
      r[k].id == IdFor(year, n + 1 + k - |records|) && r[k].firstSeen == at && r[k].fingerprint in fps
    decreases |fps|
  {
    var records', n' := AddAllStep(records, fps, year, at, n);
    if |records'| <= k {
      assert n' + 1 + k - |records'| == n + 1 + k - |records|;
      AddAllNumbers(records', fps[1..], year, at, n', k);
    } else {
      AddAllPrefix(records', fps[1..], year, at, n');
    }
  }

  lemma {:induction false} AddAllPrefix(records: seq<FindingRecord>, fps: seq<string>, year: nat, at: int, n: nat)
    requires AddAll(records, fps, year, at, n).Success?
    ensures records <= AddAll(records, fps, year, at, n).value
    decreases |fps|
  {
    if fps != [] {
      if fps[0] in Fingerprints(records) {
        AddAllPrefix(records, fps[1..], year, at, n);
      } else {
        AddAllPrefix(records + [FindingRecord(IdFor(year, n + 1), fps[0], at)], fps[1..], year, at, n + 1);
      }
    }
  }

  /** Every given fingerprint has a record afterwards. */
  lemma {:induction false} AddAllCovers(
      records: seq<FindingRecord>, fps: seq<string>, year: nat, at: int, n: nat, f: string)
    requires AddAll(records, fps, year, at, n).Success? && f in fps
    ensures f in Fingerprints(AddAll(records, fps, year, at, n).value)
    decreases |fps|
  {
    var known := fps[0] in Fingerprints(records);
    var records' := if known then records else records + [FindingRecord(IdFor(year, n + 1), fps[0], at)];
    var n' := if known then n else n + 1;
    if f == fps[0] {
      assert !known ==> Fingerprints(records')[|records|] == f;
      AddAllPrefix(records', fps[1..], year, at, n');
      PrefixFingerprints(records', AddAll(records', fps[1..], year, at, n').value, f);
    } else {
      AddAllCovers(records', fps[1..], year, at, n', f);
    }
  }

  lemma PrefixFingerprints(a: seq<FindingRecord>, b: seq<FindingRecord>, f: string)
    requires a <= b && f in Fingerprints(a)
    ensures f in Fingerprints(b)
  {
    var i :| 0 <= i < |a| && Fingerprints(a)[i] == f;
    assert Fingerprints(b)[i] == f;
  }

  /** A call succeeds exactly when no new fingerprint is empty and, if there is a new one, the year has four digits. */
  lemma {:induction false} AddAllSucceedsExactlyWhen(
      records: seq<FindingRecord>, fps: seq<string>, year: nat, at: int, n: nat)
    requires Ascending(fps)
    ensures AddAll(records, fps, year, at, n).Success? <==>
      forall f :: f in fps && f !in Fingerprints(records) ==> f != "" && 1000 <= year <= 9999
    decreases |fps|
  {
    if fps != [] {
      IdReadsBack(year, n + 1);
      TailElements(fps);
      if fps[0] in Fingerprints(records) {
        AddAllSucceedsExactlyWhen(records, fps[1..], year, at, n);
      } else {
        assert fps[0] in fps;
        var records' := records + [FindingRecord(IdFor(year, n + 1), fps[0], at)];
        assert Fingerprints(records') == Fingerprints(records) + [fps[0]];
        AddAllSucceedsExactlyWhen(records', fps[1..], year, at, n + 1);
      }
    }
  }

  lemma AssignedCorrect(records: seq<FindingRecord>, fps: seq<string>, year: nat, at: int)
    requires ValidRegistry(records)
    ensures Assigned(records, fps, year, at).Success? <==>
      forall f :: f in fps && f !in Fingerprints(records) ==> f != "" && 1000 <= year <= 9999
    ensures Assigned(records, fps, year, at).Success? ==>
      var r := Assigned(records, fps, year, at).value;
      ValidRegistry(r) && records <= r && forall f :: f in fps ==> f in Fingerprints(r)
  {
    var n := HighestNumber(records, year);
    AddAllSucceedsExactlyWhen(records, SortUnique(fps), year, at, n);
    if Assigned(records, fps, year, at).Success? {
      AddAllKeepsValid(records, SortUnique(fps), year, at, n);
      forall f | f in fps ensures f in Fingerprints(Assigned(records, fps, year, at).value) {
        AddAllCovers(records, SortUnique(fps), year, at, n, f);
      }
    }
  }

  // ---------------------------------------------------------------- any run

  datatype Call = Call(fingerprints: seq<string>, year: nat, at: int)

  /** The registry after some calls; a call that fails leaves it as it was. */
  function RunCalls(records: seq<FindingRecord>, calls: seq<Call>): (r: seq<FindingRecord>)
    requires ValidRegistry(records)
    ensures ValidRegistry(r) && records <= r
    decreases |calls|
  {
    if calls == [] then records
    else
      AssignedCorrect(records, calls[0].fingerprints, calls[0].year, calls[0].at);
      var r := Assigned(records, calls[0].fingerprints, calls[0].year, calls[0].at);
      RunCalls(if r.Success? then r.value else records, calls[1..])
  }

  lemma {:induction false} RunSplits(records: seq<FindingRecord>, a: seq<Call>, b: seq<Call>)
    requires ValidRegistry(records)
    ensures RunCalls(records, a + b) == RunCalls(RunCalls(records, a), b)
    decreases |a|
  {
    if a == [] {
      assert a + b == b;
    } else {
      AssignedCorrect(records, a[0].fingerprints, a[0].year, a[0].at);
      var r := Assigned(records, a[0].fingerprints, a[0].year, a[0].at);
      assert (a + b)[1..] == a[1..] + b;
      RunSplits(if r.Success? then r.value else records, a[1..], b);
    }
  }

  lemma {:induction false} IdMapAt(records: seq<FindingRecord>, i: nat)
    requires ValidRegistry(records) && i < |records|
    ensures records[i].fingerprint in IdMap(records) && IdMap(records)[records[i].fingerprint] == records[i].id
  {
    var n := |records| - 1;
    if i < n {
      IdMapAt(records[..n], i);
    }
  }

  lemma IdMapFind(records: seq<FindingRecord>, f: string) returns (i: nat)
    requires ValidRegistry(records) && f in IdMap(records)
    ensures i < |records| && records[i].fingerprint == f && IdMap(records)[f] == records[i].id
  {
    IdMapKeys(records, f);
    i :| 0 <= i < |records| && Fingerprints(records)[i] == f;
    IdMapAt(records, i);
  }

  /** Over any run of calls, in any years, every fingerprint keeps its first id. */
  lemma IdsAreStable(records: seq<FindingRecord>, a: seq<Call>, b: seq<Call>, f: string)
    requires ValidRegistry(records) && f in IdMap(RunCalls(records, a))
    ensures var before, after := IdMap(RunCalls(records, a)), IdMap(RunCalls(records, a + b));
      f in after && after[f] == before[f]
  {
    RunSplits(records, a, b);
    var i := IdMapFind(RunCalls(records, a), f);
    IdMapAt(RunCalls(records, a + b), i);
  }

  /** And no two fingerprints ever share one. */
  lemma IdsAreUnique(records: seq<FindingRecord>, calls: seq<Call>, f: string, g: string)
    requires ValidRegistry(records)
    requires var ids := IdMap(RunCalls(records, calls)); f in ids && g in ids && ids[f] == ids[g]
    ensures f == g
  {
    var i := IdMapFind(RunCalls(records, calls), f);
    var j := IdMapFind(RunCalls(records, calls), g);
  }
}
