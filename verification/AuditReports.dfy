/**
 `build_audit_report` of `agricola/audit.py`: the deltas of an audit get their finding ids and become
 the report that the tracker delivers. How a finding is rendered is a parameter.
 */
module AuditReports {
  import opened Wrappers
  import opened Text
  import opened Models
  import opened AuditIds
  import opened Clustering
  import Tracker

  type Render = (string, Draft) -> string

  function FindingFor(ids: map<string, string>, render: Render, d: Draft): Tracker.Finding
    requires d.fingerprint in ids
  {
    Tracker.Finding(ids[d.fingerprint], render(ids[d.fingerprint], d))
  }

  /** One draft for exactly the fingerprints that affect somebody. */
  ghost predicate AreDrafts(canonical: Snapshot, targets: seq<Snapshot>, drafts: seq<Draft>) {
    && Ascending(FingerprintsOf(drafts))
    && (forall f :: f in FingerprintsOf(drafts) <==> AffectedBy(canonical, targets, f) != {})
    && (forall i :: 0 <= i < |drafts| ==> IsDraft(canonical, targets, drafts[i]))
  }

  /** One finding for each draft, under the id of its fingerprint. */
  ghost predicate AreFindings(ids: map<string, string>, render: Render, drafts: seq<Draft>,
    findings: seq<Tracker.Finding>) {
    && |findings| == |drafts|
    && forall i :: 0 <= i < |drafts| ==>
      drafts[i].fingerprint in ids && findings[i] == FindingFor(ids, render, drafts[i])
  }

  method NameFindings(ids: map<string, string>, render: Render, drafts: seq<Draft>)
    returns (findings: seq<Tracker.Finding>)
    requires forall i :: 0 <= i < |drafts| ==> drafts[i].fingerprint in ids
    ensures AreFindings(ids, render, drafts, findings)
  {
    findings := [];
    for i := 0 to |drafts|
      invariant AreFindings(ids, render, drafts[..i], findings)
    {
      findings := findings + [FindingFor(ids, render, drafts[i])];
    }
    assert drafts[..|drafts|] == drafts;
  }

  lemma DraftsAreNamed(records: seq<FindingRecord>, drafts: seq<Draft>)
    requires forall f :: f in FingerprintsOf(drafts) ==> f in Fingerprints(records)
    ensures forall i :: 0 <= i < |drafts| ==> drafts[i].fingerprint in IdMap(records)
  {
    forall i | 0 <= i < |drafts| ensures drafts[i].fingerprint in IdMap(records) {
      assert FingerprintsOf(drafts)[i] == drafts[i].fingerprint;
      IdMapKeys(records, drafts[i].fingerprint);
    }
  }

  /** The registry grows only if the whole report is built. */
  method BuildAuditReport(
      store: AuditStore, drafts: seq<Draft>, year: nat, at: int, render: Render, index: string, healthy: bool)
      returns (r: Result<Tracker.Report>)
    requires ValidRegistry(store.findings)
    modifies store
    ensures ValidRegistry(store.findings) && old(store.findings) <= store.findings
    ensures r.Success? <==> forall f :: f in FingerprintsOf(drafts) && f !in Fingerprints(old(store.findings)) ==>
      f != "" && 1000 <= year <= 9999
    ensures r.Failure? ==> store.findings == old(store.findings)
    ensures r.Success? ==>
      && r.value.index == index && r.value.healthy == healthy
      && AreFindings(IdMap(store.findings), render, drafts, r.value.findings)
  {
    AssignedCorrect(store.findings, FingerprintsOf(drafts), year, at);
    var ids := store.Assign(FingerprintsOf(drafts), year, at);
    if ids.Failure? {
      return Failure(ids.error);
    }
    DraftsAreNamed(store.findings, drafts);
    var findings := NameFindings(ids.value, render, drafts);
    return Success(Tracker.Report(index, healthy, findings));
  }

  /** A renderer of finding issues: its own marker first, no index marker, a table that can be edited or none. */
  ghost predicate RendersFindings(render: Render) {
    forall id: string, d: Draft :: IsFindingId(id) ==> Tracker.IsFindingBody(Tracker.Finding(id, render(id, d)))
  }

  lemma FingerprintsDiffer(drafts: seq<Draft>, i: nat, j: nat)
    requires Ascending(FingerprintsOf(drafts)) && i < j < |drafts|
    ensures drafts[i].fingerprint != drafts[j].fingerprint
  {
    assert Less(FingerprintsOf(drafts)[i], FingerprintsOf(drafts)[j]);
    LessIrreflexive(drafts[i].fingerprint);
  }

  /** What is built is a report as the tracker expects it: well-formed bodies under distinct ids. */
  lemma BuiltIsReport(
      records: seq<FindingRecord>, canonical: Snapshot, targets: seq<Snapshot>, render: Render, drafts: seq<Draft>,
      report: Tracker.Report)
    requires ValidRegistry(records) && AreDrafts(canonical, targets, drafts) && RendersFindings(render)
    requires AreFindings(IdMap(records), render, drafts, report.findings)
    requires Tracker.IsIndexBody(report.index)
    ensures Tracker.IsReport(report)
  {
    forall i | 0 <= i < |drafts| ensures Tracker.IsFindingBody(report.findings[i]) {
      var k := IdMapFind(records, drafts[i].fingerprint);
    }
    forall i, j | 0 <= i < j < |drafts| ensures report.findings[i].id != report.findings[j].id {
      var k := IdMapFind(records, drafts[i].fingerprint);
      var l := IdMapFind(records, drafts[j].fingerprint);
      FingerprintsDiffer(drafts, i, j);
    }
  }

  /** The report names an id exactly if it is that of a fingerprint that affects somebody. */
  lemma BuiltReportsExactly(
      records: seq<FindingRecord>, canonical: Snapshot, targets: seq<Snapshot>, render: Render, drafts: seq<Draft>,
      findings: seq<Tracker.Finding>, f: string)
    requires ValidRegistry(records) && AreDrafts(canonical, targets, drafts) && f in IdMap(records)
    requires AreFindings(IdMap(records), render, drafts, findings)
    ensures Tracker.IsReported(findings, IdMap(records)[f]) <==> AffectedBy(canonical, targets, f) != {}
  {
    var ids := IdMap(records);
    if AffectedBy(canonical, targets, f) != {} {
      var i :| 0 <= i < |drafts| && FingerprintsOf(drafts)[i] == f;
      assert findings[i].id == ids[f];
    }
    if i :| 0 <= i < |findings| && findings[i].id == ids[f] {
      var k := IdMapFind(records, drafts[i].fingerprint);
      var l := IdMapFind(records, f);
      assert drafts[i].fingerprint == f;
      assert FingerprintsOf(drafts)[i] == f;
    }
  }
}
