# Agricola and conformance kernels: verification model

A Dafny 4.11 model of the Agricola control plane (`agricola/`) and of four kernels of the
conformance tooling, with proofs of what they promise. `dafny verify dfyconfig.toml` checks the
whole project.

Text is `seq<char>`, times and JSON numbers are integers, exceptions are `Failure`, and pydantic
validators are validity predicates. Whatever the host, git or an SDK answers is a parameter.

**State branch.** `StateProtocol` lets any number of writers run the statements of `transact`
against one remote branch, interleaved freely, with commands that fail and pushes that are refused,
that land, or that land and report failure; what an operation does may differ from one attempt to the next.
`StateTheorems` proves that no update is lost, that replay has exactly-once effect for keyed decisions, and exactly
when `commit()`, which compares with the base checkout and not with the branch, drops a change. `StateTransaction`
is the loop in place. `Ledger` is the decision ledger it carries.

**Publication.** `PublicationProtocol` runs `publish` statement by statement over a commit graph
(`GitGraph`), stopped anywhere and retried any number of times, while a key may be asked for again at a new head and
other people push, comment and close. `PublicationTheorems` holds the guarantees, `Publisher` the code in place.

**Polling and comments.** `Listing` is the pagination that stops early, `Labels` the label resolution,
`Poll` the loop body of a poll, `PollRuns` the loop and any run of polls, each with its own listing and label events,
`PollTransactions` runs of polls under `transact`, `Comments` the comment
handler and the recording of outcomes, `AuditComments` the handler for finding issues.

**The issue table.** `TextLines`, `PropagationTable`, `PropagationEdits` and `PropagationReader` treat the
propagation table as the text it is, and show that the edits act on a map from targets to rows.
`PropagationSettled` says exactly when carrying state over once is enough. `PropagationRender` is the table as
the program renders it, and shows that rendered bodies are what the other modules ask for; `Remediation` renders
the command section of a finding issue anew.

**Audit.** `Clustering` groups deltas, `AuditIds` hands out finding ids, `AuditReports` makes the report of both,
`AuditMarkers` and `Tracker` reconcile issues with one report, `TrackerRuns` over repeated audits that may stop
anywhere, with edits of the issues between them.

**Kernels.** `CanonicalJson`, `StableJson`, `StableJsonWriter`, `GoldenOrder`, `GoldenJson` and `ChallengeId`: the canonical
JSON text in its Rust and TypeScript forms and the challenge-id preimage. `AuthParams`, `AuthRoundTrip` and
`DuplicateScan`: auth-params (sections 11.2 and 5.6.4 of RFC 9110). `PairCompare` and `PairVerdict`:
expected failures over JSON trees. `CallScopes`: the two forms of call scopes. `AdapterSession`: request
and response pairing.

Where the code and what is said about it differ, the model follows the code:

- `commit()` diffs against the base checkout. In every run, `transact` returns with nothing of its last attempt
  on the branch exactly when the operation led to the base ledger, so a change is dropped exactly when it led
  back there from another ledger (`StateTheorems.DroppedExactlyWhen`); such runs exist (`StateTheorems.UndoIsDropped`).
  Append-only operations are not affected (`StateTheorems.SuccessIsKept`).
- A first publication may move a branch that somebody else extended. In every run, the old history stays exactly
  when the old head is in the history of the base the publication started from
  (`PublicationTheorems.InitialKeepsHistoryExactlyWhen`); a retry that drops a commit is
  `PublicationTheorems.RetryDropsHistory`.
- Reruns reuse their keys and are said to update a published branch idempotently (`agricola/README.md:112` and `161`). A
  comment that is handled again asks for its revision under the same key, but at the present head, because the head is
  read anew and revisions are not recorded (`agricola/service.py:268-288` and `456-461`). The revision then lands once
  more (`PublicationTheorems.AskedAgainLandsAgain`), and only then do two commits carry one key
  (`PublicationTheorems.TwoCommitsNeedTwoAsks`). The second is not reported: one summary is posted per key. Such a run is
  `PublicationTheorems.OneKeyLandsTwice`.
- A poll and a comment can queue a first propagation to one target under the same key. When both are carried out, the
  second recording raises the key conflict exactly when it is another decision, in its pull request, time or actor
  (`Comments.SharedKeyConflictsExactlyWhen`).
- `stableStringify` says it sorts by code point but compares UTF-16 code units, and it leaves U+007F to
  U+009F unescaped. Its text and the Rust text agree exactly when no string holds such a control and no object
  has two keys that first differ in a character of U+E000 to U+FFFF and one from U+10000 on
  (`GoldenJson.WritersAgreeExactlyWhen`).
- `preserve_propagation_state` is not always idempotent. A second time changes the text exactly when the last
  line of the body that is not blank becomes, by losing blanks at its end, the key of a recorded row that lacks
  its closing backtick, the table has a row of that target, and the last line of the body that names the target,
  if any does, puts a row of the target again (`PropagationSettled.IdempotentExactlyWhen`). Twice is always enough.
- Call scopes are lower-cased throughout, so the translation is the identity exactly for lower-case scopes
  with distinct targets and all fields present (`CallScopes.TranslationIsIdentityExactlyWhen`).

## Model

| member | source | states |
|---|---|---|
| StateProtocol.RunKeepsAttempts | agricola/state_transaction.py:217-259 | over every interleaving, an attempt has at most one commit, and no commit is from a later attempt |
| StateProtocol.RunKeepsInv | agricola/state_transaction.py:44-191 | every interleaving of any number of writers keeps the invariant: each log entry's commit was made from the ledger published just before it |
| StateTheorems.NoLostUpdate | agricola/state_transaction.py:145-259 | each published ledger is exactly its writer's operation applied to the ledger published immediately before |
| StateTheorems.UnpublishedEqualsBase | agricola/state_transaction.py:44-52 | a run that returns without publishing ended with exactly the base ledger |
| StateTheorems.SuccessIsPublished | agricola/state_transaction.py:69-87 | whoever returns, the result is a ledger the branch carried |
| StateTheorems.DroppedExactlyWhen | agricola/state_transaction.py:44-52 | in every run, a returned writer has nothing of its last attempt on the branch exactly when the operation led to the base ledger; its change is swallowed exactly when it led back there from a different one |
| StateTheorems.UndoIsDropped | agricola/state_transaction.py:44-52 | a run with two writers in which that happens |
| StateTheorems.PublishedGrowsByAppending | agricola/state_transaction.py:145-259 | for append-only operations, published histories only grow by appending |
| StateTheorems.SuccessIsKept | agricola/state_transaction.py:217-259 | nothing a successful append-only run did is missing from the branch |
| StateTheorems.ReplayIsExactlyOnce | agricola/state_transaction.py:69-87 | with refused pushes and pushes that land but report failure, a successful writer's keyed decisions are in the branch ledger exactly once |
| StateTransaction.SharedBranch.Snapshot | agricola/state_transaction.py:145-191 | the lease is the fetched SHA and the ledger is restored from that same SHA |
| StateTransaction.SharedBranch.Publish | agricola/state_transaction.py:69-87 | true, false or an error according to the push and the second look at the remote |
| StateTransaction.SharedBranch.Transact | agricola/state_transaction.py:217-259 | under every schedule the loop is a run of the protocol and returns exactly when its writer has returned |
| Ledger.AppendAtCorrect | agricola/ledger.py:76-89 | an error exactly for a key reused with other data; otherwise validity and history are kept and nothing else changes |
| Ledger.AppendSourceCorrect | agricola/ledger.py:67-74 | success exactly for a matching entry and an unused or identical key; the decision is recorded once |
| Ledger.AppendCorrect | agricola/ledger.py:61-65 | appending for a change, which may open its entry, records the decision once and keeps the rest |
| Ledger.EnsureKeepsHistory | agricola/ledger.py:91-116 | `ensure` keeps every decision and every recorded non-empty label snapshot |
| Ledger.EnsureOnce | agricola/ledger.py:91-116 | the snapshot is there afterwards and a second call changes nothing |
| Ledger.DecisionLedger.WriteAppended | agricola/ledger.py:76-89 | the loop over the decisions in place: appended, unchanged, or an error |
| Ledger.DecisionLedger.AppendForSource | agricola/ledger.py:67-74 | in place, what `AppendSource` says |
| Ledger.DecisionLedger.AppendForChange | agricola/ledger.py:61-65 | in place, what `Append` says |
| Ledger.DecisionLedger.EnsureSnapshot | agricola/ledger.py:91-116 | in place, what `Ensure` says |
| PublicationProtocol.StepKeepsInv | agricola/publisher.py:108-179 | every request, also one repeated at a new head, every statement of a run, every crash and everything other people do keeps the publication invariant |
| PublicationTheorems.OnePull | agricola/publisher.py:182-200 | one pull request per stable branch over any number of runs |
| PublicationTheorems.OneCommitPerRequest | agricola/publisher.py:227-238 | at most one commit per revision key and recorded head was ever pushed or is in the branch's history |
| PublicationTheorems.TwoCommitsNeedTwoAsks | agricola/service.py:268-288 | two pushed commits of one key are there only because the key was asked for again after one of them had been pushed |
| PublicationTheorems.AskedAgainLandsAgain | agricola/publisher.py:152-154 | and then it is so: a key asked for again at the present head gets a second commit, and no second comment if the first was reported |
| PublicationTheorems.OneKeyLandsTwice | agricola/publisher.py:152-154 | a run with two commits of one key, of which only the first is reported |
| PublicationTheorems.OneCommentPerKey | agricola/publisher.py:266-297 | at most one summary comment per key and pull request, however many commits carry the key, and it reports one of those that were pushed |
| PublicationTheorems.RevisionOnlyExtends | agricola/publisher.py:149-166 | a revision run moves the branch only from its recorded head and drops nobody's commit |
| PublicationTheorems.InitialKeepsHistoryExactlyWhen | agricola/publisher.py:167-173 | in every run, a first publication that lands on an existing branch keeps its history exactly when the old head is in the history of the base it started from |
| PublicationTheorems.RetryDropsHistory | agricola/publisher.py:167-173 | a run in which a retried first publication drops somebody's commit from the branch |
| PublicationTheorems.DoneIsPublished | agricola/publisher.py:175-179 | a revision run that succeeds has a commit for its key pushed, and its summary posted unless somebody else's comment there contains the key's marker |
| PublicationTheorems.ReportsOnce | agricola/publisher.py:266-297 | undisturbed, the run's own summary is posted exactly when it was before or nobody's comment there contains the key's marker |
| PublicationTheorems.RetryCompletes | agricola/publisher.py:155-166 | a retry finds a commit of its key on the branch since the recorded head, reports it and pushes nothing |
| PublicationTheorems.AnswerIsPublished | agricola/publisher.py:227-238 | which holds after any crash that followed the push, while the branch keeps the commit |
| PublicationTheorems.RetryLands | agricola/publisher.py:152-154 | a retry with the branch still at the recorded head lands its commit and reports it |
| PublicationTheorems.RetryFails | agricola/publisher.py:155-162 | in every other case it fails and leaves branch and comments alone |
| Publisher.Remote.Publish | agricola/publisher.py:108-179 | the code in place, stopped at any statement, is a run of the protocol; it returns exactly when that run is done |
| Listing.CollectPage | agricola/github.py:144-161 | one page contributes exactly its merged items at or after the cutoff |
| Listing.MergedChanges | agricola/github.py:128-165 | the loop, for every listing; for one in the promised order it returns exactly the merged items of the whole listing at or after the cutoff, sorted |
| Listing.CollectedIsWindow | agricola/github.py:135-163 | in that order, leaving early equals filtering everything |
| Listing.WindowMembers | agricola/github.py:144-149 | a change is in the window exactly if a merged item at or after the cutoff carries it |
| Listing.SortCorrect | agricola/github.py:165 | sorting orders by merge time and number and permutes |
| Listing.EarlyExitNeedsTheOrder | agricola/github.py:162-163 | a listing with an item merged after its recorded update, which the loop misses |
| Labels.ResolveLabels | agricola/commands.py:185-264 | the loop keeps each label's last event; the rest follows the resolution function |
| Labels.LabelsExactlyCount | agricola/commands.py:185-264 | a label counts exactly when its last event at or before merge is a maintainer adding it |
| Labels.TargetsExactlySelected | agricola/commands.py:215-264 | targets are exactly the PR-enabled SDKs selected by name or `all`, `none` empties them, each has an authorised actor |
| Labels.DisabledExactlyWhen | agricola/commands.py:215-264 | propagation is disabled exactly when `none` counts or no known label does |
| Labels.LaterEventsChangeNothing | agricola/commands.py:185-264 | events after the merge change nothing |
| Poll.BodyHandles | agricola/service.py:91-141 | what each prefix of the loop body leaves: history kept, cursor moved only at the end, label snapshot and tracking issue there |
| Poll.HostFactsAreSound | agricola/service.py:91-101 | resolved targets are PR-enabled and name an authorised actor |
| Poll.Host.Body | agricola/service.py:91-141 | the statements of the body in place, stopped after any of them |
| PollRuns.NoListedChangeIsLost | agricola/service.py:82-142 | over any run of polls stopped anywhere, with labels and their events edited at any time, a pull request that was listed once is handled as some poll listed it or is inside the next window |
| PollRuns.CursorNeverMovesBack | agricola/models.py:575-576 | the cursor of a later poll is never earlier, whatever the polls find |
| PollRuns.OneTrackingIssue | agricola/service.py:111-123 | no change has two tracking issues |
| PollRuns.ListedExactly | agricola/github.py:135-165 | a poll lists exactly the merged changes inside its window |
| PollRuns.FinishedRequestsAll | agricola/service.py:124-137 | a poll that finishes asks for every selected target that is still undecided |
| PollRuns.RequestsAreAuthorized | agricola/models.py:265-269 | every request names an authorised actor and a PR-enabled SDK |
| PollRuns.PollRepository | agricola/service.py:82-142 | the loop in place leaves the world and the requests the run says |
| PollTransactions.StoppedPollsAskAgain | agricola/state_transaction.py:217-259 | under `transact`, the requests of polls that stop are not lost: the first poll that finishes is shown the pull request again and asks for every target still open |
| Comments.CommandsKeepOrder | agricola/service.py:223-360 | after any commands, queued first propagations have distinct targets and unused keys |
| Comments.KeysAreSeparate | agricola/service.py:682-722 | keys of different targets differ, and none is a skip key |
| Comments.QueuedOutcomesAreRecorded | agricola/service.py:431-470 | from any valid ledger, recording outcomes of one comment's first requests, in any order, raises no key conflict and appends each once |
| Comments.SharedKeyConflictsExactlyWhen | agricola/ledger.py:76-89 | when a poll and a comment queued one target under one key, recording both outcomes conflicts exactly when the decisions differ |
| Comments.RecordingAgainChangesNothing | agricola/service.py:431-470 | recording recorded outcomes again changes nothing |
| Comments.AcceptedNeverBoth | agricola/commands.py:164-182 | a comment that passes the conflict check never queues a target it also skips |
| Comments.RecordPropagations | agricola/service.py:431-477 | the loop in place records exactly the canonical first attempts |
| Comments.HandleComment | agricola/service.py:223-379 | the command loop in place: the ledger and the requests the specification gives, or the error of a command |
| TextLines.SplitOfJoin | agricola/planner.py:195-206 | splitting into lines undoes joining them |
| TextLines.RStripOfJoin | agricola/planner.py:206 | stripping the text strips the lines |
| PropagationTable.ReplacePropagationRows | agricola/planner.py:195-206 | the nested loops replace each row by its first matching replacement, or fail as `lines.index` does |
| PropagationTable.ReplaceIsMapUpdate | agricola/planner.py:195-206 | an edit updates the map of rows and keeps the lines outside the markers up to trailing blanks |
| PropagationTable.WithoutTable | agricola/planner.py:196-200 | a body without markers is returned as it is; the edit fails exactly when every end marker precedes the first start |
| PropagationTable.RowTargetExact | agricola/planner.py:203 | for target names, the prefix test finds exactly the rows of the target |
| PropagationEdits.QueueIsMapUpdate | agricola/planner.py:159-161 | queueing acts as a map update |
| PropagationEdits.RecordIsMapUpdate | agricola/planner.py:209-229 | recording outcomes acts as a map update, the last outcome of a target winning |
| PropagationEdits.PreserveIsMapUpdate | agricola/planner.py:176-192 | preserving carries the last state row of every shown target over, and changes nothing else |
| PropagationSettled.IdempotentExactlyWhen | agricola/planner.py:176-206 | for all bodies, preserving twice gives the same text as once exactly when the stripped last line does not reveal a damaged row whose target the table still shows |
| PropagationSettled.PreserveIsIdempotent | agricola/planner.py:176-192 | so it does for every body if the rows of the previous body are undamaged |
| PropagationSettled.StrippedIsSettled | agricola/planner.py:176-206 | and for every previous body if the body has no blanks at its end |
| PropagationSettled.SettledAfterTwo | agricola/planner.py:176-206 | for all bodies, after two times nothing changes any more |
| PropagationSettled.BlanksUnsettle | agricola/planner.py:176-206 | for every target, two bodies on which the second time still changes the text |
| PropagationSettled.SameReplacements | agricola/planner.py:184-192 | the edited lines put the same replacements as the lines before the edit |
| PropagationEdits.PreservePropagationState | agricola/planner.py:176-192 | the two dictionary loops in place |
| PropagationEdits.RecordPropagationOutcomes | agricola/planner.py:209-229 | the loop over outcomes in place |
| PropagationRender.RenderedIsIssueBody | agricola/planner.py:90-128 | a body around a rendered table has one row per target and its recorded state only in the table |
| PropagationRender.RenderedShows | agricola/planner.py:90-128 | the table shows, for exactly the visible targets, the row of their last decision |
| PropagationRender.RenderedReadsBack | agricola/planner.py:90-173 | reading a rendered body gives exactly the recorded pull requests of its visible targets that get pull requests |
| PropagationReader.RecordedPropagations | agricola/planner.py:164-173 | the loop over lines in place |
| PropagationReader.ReadsBack | agricola/planner.py:86-87 | a recorded row reads back as its reference; skip and queued rows read as nothing |
| PropagationReader.RecordedIsView | agricola/planner.py:164-173 | reading a body gives exactly the references of its table |
| PropagationReader.RecordThenRead | agricola/planner.py:164-229 | reading after recording gives exactly the recorded references and keeps the others |
| PropagationReader.PublishedHasState | agricola/planner.py:176-216 | the row of a recorded pull request counts as state to carry over |
| PropagationReader.SkipHasState | agricola/planner.py:176-226 | so does the row of a recorded skip, whatever its reason |
| PropagationReader.RegenerationKeepsState | agricola/planner.py:176-192 | a regenerated body shows, for every target both bodies show, the state the old table showed |
| Remediation.EnsureAuditRemediation | agricola/audit.py:749-763 | the section is rendered anew and state carried over, in place |
| Remediation.EnsuredKeepsState | agricola/audit.py:749-763 | the new body shows, for every target of the new section, the state the old table showed |
| Remediation.EnsuredKeepsRecorded | agricola/audit.py:749-763 | no recorded pull request of a target the section shows is lost |
| Remediation.SplitConcat | agricola/audit.py:761-762 | text behind a line break splits into its own lines, whatever the line breaks before it |
| AuditComments.HandleAuditComment | agricola/service.py:493-595 | the checks, the new section and the command loop of finding issues in place |
| AuditComments.CommentKeepsRecorded | agricola/service.py:493-595 | from the old body on, handling a comment never fails on a rendered issue and loses no recorded pull request of a target it shows |
| AuditComments.CommentEffect | agricola/service.py:493-595 | rejected exactly for unsupported verbs or unaffected targets; else each target is queued once, recorded pull requests are revised only, and the body keeps everything recorded |
| AuditComments.QueueKeepsRecorded | agricola/service.py:540-595 | queueing first attempts never loses a recorded pull request from the body |
| AuditComments.InitialKeysDiffer | agricola/service.py:619-623 | two targets never share a first-attempt key |
| AuditIds.IdReadsBack | agricola/ledger.py:191-204 | the id has the required form exactly in four-digit years, and its padded number parses back |
| AuditIds.AddAllNumbers | agricola/ledger.py:203-213 | new records are numbered on in order, for the given fingerprints only |
| AuditIds.AssignedCorrect | agricola/ledger.py:187-219 | success exactly when no new fingerprint is empty and the year fits; the registry stays valid and only grows |
| AuditIds.IdsAreStable | agricola/ledger.py:187-219 | over any run of calls a fingerprint keeps its first id |
| AuditIds.IdsAreUnique | agricola/models.py:502-514 | over any run of calls no two fingerprints share an id |
| AuditIds.AuditStore.Assign | agricola/ledger.py:187-219 | the loop in place; a failed call changes nothing |
| Clustering.CapabilityGroups | agricola/audit.py:228-246 | the groups of operations some target does not declare |
| Clustering.BrokenGroups | agricola/audit.py:248-267 | the nested loops add exactly the targets that fail a check the reference passes |
| Clustering.AddClean | agricola/audit.py:269-280 | the targets that pass a check become clean in its group |
| Clustering.ReviewGroups | agricola/audit.py:282-300 | the targets whose completed review reports a finding |
| Clustering.AnalyzeDeltas | agricola/audit.py:206-327 | one draft for exactly the fingerprints that affect somebody, fingerprints strictly increasing, each list exactly what the rule names |
| Clustering.AffectedAreNotClean | agricola/audit.py:206-327 | for validated snapshots no target is both affected and clean, and each finding has one kind of cause |
| AuditReports.BuildAuditReport | agricola/audit.py:354-380 | every draft becomes a finding under the id of its fingerprint, or nothing is stored |
| AuditReports.BuiltIsReport | agricola/audit.py:354-380 | what is built has well-formed bodies under pairwise distinct ids |
| AuditReports.BuiltReportsExactly | agricola/audit.py:329-380 | an id is reported exactly if its fingerprint affects somebody |
| AuditMarkers.MarkerFirst | agricola/audit.py:624-629 | a body that starts with a finding's marker belongs to that finding |
| AuditMarkers.PreservedKeepsFirstLine | agricola/planner.py:195-206 | carrying state over keeps the first line |
| AuditMarkers.PreservedBodyIsFree | agricola/planner.py:176-206 | and brings in no marker that neither body had |
| Tracker.DeliveryEffect | agricola/audit.py:462-508 | a delivery never fails for rendered reports; where every issue stands afterwards |
| Tracker.DeliveryKeepsInv | agricola/audit.py:462-508 | never two issues for one finding, never two index issues |
| Tracker.UnhealthyClosesNothing | agricola/audit.py:495-498 | an unhealthy report closes nothing |
| Tracker.OpenAreReported | agricola/audit.py:470-498 | every reported finding is open afterwards; after a healthy report no other finding is |
| TrackerRuns.RunKeepsInv | agricola/audit.py:462-508 | so over any run of deliveries, finished or stopped after any write, and edits between them |
| TrackerRuns.RunEndsExact | agricola/audit.py:462-508 | after any such run from an empty tracker, a healthy delivery leaves exactly the reported findings open |
| TrackerRuns.TableEditKeepsMarkers | agricola/planner.py:195-206 | edits of a finding's table keep what its issue stands for, unless they write the index marker |
| TrackerRuns.QueueKeepsMarkers | agricola/service.py:595 | queueing is such an edit |
| Tracker.IssueTracker.WriteFindings | agricola/audit.py:477-493 | the first loop in place |
| Tracker.IssueTracker.CloseUnreported | agricola/audit.py:495-498 | the second loop in place |
| Tracker.IssueTracker.Deliver | agricola/audit.py:462-508 | the delivery in place |
| CanonicalJson.StringsUnique | conformance/adapters/rust/src/main.rs:1298-1317 | an escaped string is recovered from any text it starts, for every character and control |
| CanonicalJson.PrintUnique | conformance/adapters/rust/src/main.rs:1257-1296 | a printed value is recovered from any text it starts, for all nesting |
| StableJson.StableTextExact | conformance/adapters/rust/src/main.rs:1251-1296 | two values print the same text exactly when they are equal up to the order of object entries |
| StableJsonWriter.Output.WriteString | conformance/adapters/rust/src/main.rs:1298-1317 | the loop appends exactly the quoted text |
| StableJsonWriter.Output.WriteStableJson | conformance/adapters/rust/src/main.rs:1257-1296 | the writer appends exactly the canonical text to the buffer |
| StableJsonWriter.StableJsonText | conformance/adapters/rust/src/main.rs:1251-1255 | the text collected in a new buffer is the canonical text |
| GoldenOrder.OrdersAgree | conformance/golden/adapter.ts:110-117 | code-unit and code-point order disagree on exactly the crossed pairs of keys |
| GoldenOrder.SortTells | conformance/golden/adapter.ts:110-117 | entries that both sorts put in one order have no crossed keys |
| GoldenJson.WritersAgreeExactlyWhen | conformance/golden/adapter.ts:104-123 | the two writers agree exactly when no string holds a bare control and no object has crossed keys |
| GoldenJson.BasicKeysAgreeExactlyWhen | conformance/golden/adapter.ts:104-123 | for keys below U+10000, exactly when no string holds U+007F to U+009F |
| GoldenJson.OrdersDiffer | conformance/golden/adapter.ts:110-117 | any two crossed keys make an object with two texts |
| GoldenJson.GoldenTextExact | conformance/golden/adapter.ts:104-123 | two values have the same golden text exactly when they are equal up to the order of object entries |
| ChallengeId.PreimageExact | conformance/adapters/rust/src/main.rs:1215-1249 | for fields without the separator, two challenges have one preimage exactly when they bind the same things |
| AuthParams.SplitChallenges | conformance/scripts/pair_runner.py:139-170 | the loop computes the parse and moves on at every turn |
| AuthRoundTrip.QuoteEnds | conformance/scripts/pair_runner.py:173-175 | a quoted value is matched up to its closing quote, whatever it holds |
| AuthRoundTrip.ParamIsNoScheme | conformance/scripts/pair_runner.py:135-136 | no printed parameter is taken for a scheme, not even one named `payment` |
| AuthRoundTrip.SplitOfHeader | conformance/scripts/pair_runner.py:139-175 | parsing recovers any list of challenges with distinct lower-case token keys and arbitrary values from its printed header |
| DuplicateScan.HasDuplicateChallengeParameter | conformance/golden/adapter.ts:438-479 | the index walk in place |
| DuplicateScan.DuplicatesExactly | conformance/golden/adapter.ts:438-479 | for word keys and arbitrary values, a duplicate is reported exactly when two keys are equal |
| PairCompare.RemoveFields | conformance/scripts/pair_runner.py:418-428 | the loop that removes fields |
| PairCompare.FieldValueWithout | conformance/scripts/pair_runner.py:408-428 | what removing one field does to the value at any other |
| PairCompare.SameExceptFields | conformance/scripts/pair_runner.py:408-428 | trees equal without some fields and equal or both missing at each of them are equal |
| PairCompare.SameApart | conformance/scripts/pair_runner.py:418-428 | trees equal without some fields are equal everywhere apart from them |
| PairVerdict.Compare | conformance/scripts/pair_runner.py:431-501 | the comparison in place gives the verdict |
| PairVerdict.DifferenceIsCovered | conformance/scripts/pair_runner.py:467-482 | every excused difference is accounted for at the place where it is |
| PairVerdict.XfailIsExcused | conformance/scripts/pair_runner.py:431-501 | `xfail` means every difference is covered by an applicable entry and one entry is confirmed |
| PairVerdict.PassExactlyWhen | conformance/scripts/pair_runner.py:431-501 | `pass` means exactly that the snapshot was met and every applicable entry names a step outside it |
| CallScopes.FromScopesLoop | tempo-conformance/adapters/typescript/adapter.ts:50-63 | the two loops in place |
| CallScopes.TranslationPermitsTheSame | tempo-conformance/adapters/typescript/adapter.ts:34-63 | both translations together permit exactly the same target, selector and recipient, with one lower-case entry per target |
| CallScopes.TranslationIsIdentityExactlyWhen | tempo-conformance/adapters/typescript/adapter.ts:34-63 | the input comes back exactly when it has the normal form |
| CallScopes.SomeDoNotComeBack | tempo-conformance/adapters/typescript/adapter.ts:34-63 | targets that are not in lower case or given twice do not come back |
| CallScopes.TranslatedPermitsTheSame | tempo-conformance/adapters/typescript/adapter.ts:50-63 | absent scopes stay absent, empty ones empty, and all keep their meaning |
| AdapterSession.HappensLoses | conformance/scripts/harness.py:522-549 | on its way a line is never added, duplicated or reordered; it can only get lost |
| AdapterSession.ExchangeIsPaired | conformance/scripts/harness.py:551-570 | under every schedule a call gets its own line or an error, and nothing is left for the next one |
| AdapterSession.InitialState | tempo-conformance/scripts/run.py:181-194 | a new session meets the invariant the runs start from |
| AdapterSession.NoAnswerStrays | tempo-conformance/scripts/run.py:180-225 | over any run of calls in either version no call gets another call's answer |
| AdapterSession.PromptAnswerIsReturned | conformance/scripts/harness.py:551-570 | an adapter that answers in time is heard |
| AdapterSession.Session.Call | conformance/scripts/harness.py:551-570 | the exchange in place; the session stays valid |

## Left out

- Subprocess, git, HTTP and file plumbing: only its effect on the branch, the tracker, the comments and the ledger is modelled.
- Deleting the state branch and the label snapshots `ensure` creates without labels: the poll properties assume they do not happen.
- PollRuns.NoListedChangeIsLost: assumes a merged pull request stays merged, with its commit and merge time, in the listings, and that a listing does not change between the pages of one poll.
- PollRuns.FinishedRequestsAll: says nothing about a poll that stops; under `transact` that poll's ledger is dropped with its requests (`PollTransactions.StoppedPollsAskAgain`).
- PublicationTheorems.OneCommitPerRequest: pull requests and commits with Agricola trailers made by other people, and forced pushes by other people, are outside the model.
- PublicationTheorems.OnePull: covers the pull requests this code creates for one stable branch.
- StateTransaction.SharedBranch.Transact: the pauses between attempts, and a failing clean-up after the last statement, are left out.
- Comments.RecordPropagations: replies and the update of the issue are left out.
- Comments.HandleComment: reply texts, the issue update and requests whose pull request cannot be read are left out; a revision that cannot be resolved is a parameter.
- Labels.ResolveLabels: lower-casing is ASCII; login and label names are ASCII.
- Poll counters, tracking-issue prose and titles: they would only add easy members.
- `shlex` tokenising in `parse_commands`: commands are taken as parsed; only the final conflict check is modelled.
- PropagationEdits.PreserveIsMapUpdate: for previous bodies in which every line that looks like recorded state is a row of a target, as in every rendered body.
- AuditComments.HandleAuditComment: reply texts and the live status of pull requests are left out; the rendered section is a parameter.
- Remediation.EnsuredKeepsState: for sections with a table; when no affected target gets pull requests the section has none (`agricola/audit.py:725-736`), and the rows recorded so far are not in the new body. That a rendered finding issue has the form `IsRemediated` asks of the old body is not proved.
- PropagationReader.RecordThenRead: for bodies with one row per target, recorded rows only inside the table, and single-line reasons and links.
- Clustering.AnalyzeDeltas: summaries, references, review evidence, severities and the list of errors are left out.
- Tracker.DeliveryKeepsInv: titles, labels and links are left out, and each rendered body starts with its own marker.
- TrackerRuns.RunKeepsInv: edits happen between deliveries and not inside one, and keep the markers of the issue; new issues are opened by deliveries only.
- `render_audit_report`, `executor.py` and the command-line entry points: rendering.
- CanonicalJson.PrintUnique: JSON numbers are integers; floats and their shortest decimal form are left out.
- ChallengeId.PreimageExact: base64url is an injective encoding given as a parameter and the keyed digest is left out; fields that contain the separator are outside its claim.
- DuplicateScan.DuplicatesExactly: keys with characters outside `\w`, which the scanner does not recognise as keys, are outside its claim.
- PairVerdict.Compare: the printed differences and reasons for failures are left out; a verdict keeps the reasons of the entries.
- AdapterSession.NoAnswerStrays: for adapters that write at most one line per request; parsing the line and the graceful shutdown on close are left out.
- CallScopes.FromScopesLoop: addresses and selectors are ASCII hex text; the check that `allowedCalls` is an array is left to the type.
- Cryptography, RLP, signature recovery and all SDK calls, the fake servers, `diff_fuzz.py`, `flow_runner.py`, version pinning and `resolve_sdk.py`: not part of this model.
