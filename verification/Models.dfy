/** The records of `agricola/models.py` and the validity its validators demand. Times are integers. */
module Models {
  import opened Wrappers
  import opened Text

  datatype Source = Source(repo: string, pr: nat, sha: string)

  datatype Decision =
    | Propagate(target: string, author: string, key: string, at: int, pr: string)
    | Skip(target: string, author: string, key: string, at: int, reason: string)

  datatype LedgerEntry = LedgerEntry(id: string, source: Source, labels: seq<string>, decisions: seq<Decision>)

  datatype FindingRecord = FindingRecord(id: string, fingerprint: string, firstSeen: int)

  /** The files under `ledger/`: one entry per change, the poll cursor and the audit registry. */
  datatype LedgerState = LedgerState(
    entries: map<string, LedgerEntry>, cursor: Option<int>, findings: seq<FindingRecord>)

  /** The part of a merged canonical pull request that the ledger looks at. */
  datatype Change = Change(repo: string, number: nat, sha: string, mergedAt: int, labels: seq<string>)

  /** `repo.rsplit("/", 1)[-1]`. */
  function RepoName(repo: string): string {
    if repo == "" then ""
    else if repo[|repo| - 1] == '/' then ""
    else RepoName(repo[..|repo| - 1]) + [repo[|repo| - 1]]
  }

  /** `repo.replace("/", "-", 1)`, the way `split("/", 1)` is rejoined in a file name. */
  function DashRepo(repo: string): string {
    if repo == "" then ""
    else if repo[0] == '/' then "-" + repo[1..]
    else [repo[0]] + DashRepo(repo[1..])
  }

  function SourceId(repo: string, number: nat): string {
    RepoName(repo) + "#" + Decimal(number)
  }

  /** The key of the first propagation of a change to `t`, whoever asks for it. */
  function PropagateKey(c: Change, t: string): string {
    "propagate:" + SourceId(c.repo, c.number) + ":" + t
  }

  function ChangeSource(c: Change): Source {
    Source(c.repo, c.number, c.sha)
  }

  function Keys(decisions: seq<Decision>): (keys: seq<string>)
    ensures |keys| == |decisions|
    ensures forall i :: 0 <= i < |keys| ==> keys[i] == decisions[i].key
  {
    if decisions == [] then [] else [decisions[0].key] + Keys(decisions[1..])
  }

  /** The model validator of `LedgerEntry`. */
  ghost predicate ValidEntry(e: LedgerEntry) {
    e.id == SourceId(e.source.repo, e.source.pr) && Distinct(Keys(e.decisions))
  }

  // ---------------------------------------------------------------- manifest

  datatype Automation = Pr | Notify

  datatype Sdk = Sdk(name: string, repo: string, automation: Automation)

  /** `sdks` keeps the order of the manifest's mapping; names are its keys. */
  datatype Manifest = Manifest(maintainers: seq<string>, canonical: string, sdks: seq<Sdk>)

  ghost predicate NamesDiffer(sdks: seq<Sdk>) {
    forall i, j :: 0 <= i < j < |sdks| ==> sdks[i].name != sdks[j].name
  }

  ghost predicate ValidManifest(m: Manifest) {
    NamesDiffer(m.sdks)
  }

  function FindSdk(sdks: seq<Sdk>, name: string): (r: Option<Sdk>)
    ensures r.Some? ==> r.value in sdks && r.value.name == name
    ensures r.None? <==> forall i :: 0 <= i < |sdks| ==> sdks[i].name != name
  {
    if sdks == [] then None
    else if sdks[0].name == name then Some(sdks[0])
    else FindSdk(sdks[1..], name)
  }

  predicate IsSdk(m: Manifest, name: string) {
    FindSdk(m.sdks, name).Some?
  }

  /** A target that gets draft pull requests. */
  predicate IsPrSdk(m: Manifest, name: string) {
    FindSdk(m.sdks, name).Some? && FindSdk(m.sdks, name).value.automation == Pr
  }

  /** `Manifest.pr_targets`. */
  function PrTargets(sdks: seq<Sdk>): (names: seq<string>)
    ensures forall n :: n in names <==> exists i :: 0 <= i < |sdks| && sdks[i].name == n && sdks[i].automation == Pr
  {
    if sdks == [] then [] else (if sdks[0].automation == Pr then [sdks[0].name] else []) + PrTargets(sdks[1..])
  }

  predicate Authorized(m: Manifest, login: string) {
    exists i :: 0 <= i < |m.maintainers| && Lower(m.maintainers[i]) == Lower(login)
  }
}
