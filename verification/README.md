# Verified model of the validation gate

The repository's `scripts/` directory holds a validation gate: it decides when a
weaker check is enough for a push or a pull request, when an old result may be
used again, which CI results count as evidence, and when a checkout or a process
tree that the gate owns may be destroyed. This project models those decisions in
Dafny and proves what they are for.

| module | component |
|---|---|
| `ProcessTables`, `ProcessOs`, `ProcessStop` | freeze-then-kill cancellation of a process tree, against an operating system that keeps moving |
| `Text`, `Decimals`, `Json`, `JsonText` | string order, sorting, numbers in digits, `canonical` copies, their serialised text and how it is read |
| `RawDiff` | the parser of git's raw diff |
| `ChangeFacts`, `GatePlan`, `PlanCheck`, `PlanSelection`, `PlanFacts`, `PlanRun` | the change planner: classification, plan, check of a plan, what a plan selects, when a plan is made and says `docs`, the planner as it runs |
| `DocsExample` | a repository for which a documentation plan is made |
| `PushRefs` | one target per pushed tree, with the strongest scope any ref asks for |
| `PushCommand`, `PushSettlement`, `PushQuiet`, `PushCheckout` | event handlers of a child command, and how it settles told from its events alone; ownership of a temporary checkout, down to the process trees it cancels |
| `TreeCheck`, `Selection` | the byte audit of a checkout; the trusted contract of a documentation selection |
| `Receipts`, `ReceiptOverlap`, `WorkspaceLinks` | success receipts of local runs, one after the other and interleaved; installed workspace links |
| `TestRun`, `GateDiagnostics` | the test runner, in CI and locally, and the manifest it writes |
| `CiResults`, `CiEvidence`, `CiAgreement` | the manifest checker, what counts as evidence, and the checker's agreement with the runner |
| `Shards`, `CiRoute`, `CiAggregate`, `CiHistory` | retained routes; round-robin shards; aggregation of proofs over histories of partial reruns |

`dafny verify dfyconfig.toml` checks the whole project.

## How the outside world appears

- **The operating system** is a state with a step relation (`ProcessOs.Apply`):
  running processes fork, regroup, stop, continue, kill and exit; stopped and
  doomed ones run no code; children of a dead process go to a reaper. Assumed:
  the reaper is outside the tree, only members of the owned tree signal or
  regroup its members, nobody else joins the root group, and `ps` reports one
  moment. Between any two calls of the cancellation the system takes any number
  of steps.
- **Git** is a set of facts (`GatePlan.Repo`). That a raw diff reports every
  difference of two trees is the hypothesis `ChangeFacts.Describes`, and that the
  modifications it reports are real is `ChangeFacts.RealChanges`; only the claims
  about trees use them.
- **SHA-256** is a function parameter; where a claim needs it, `CollisionFree`
  is a hypothesis.
- **Interrupts, crashes, outcomes of calls, clocks** are parameters (`Script`
  records, `interruptAt`, `fuse`), so that a claim holds for all of them.
- A JavaScript `Map` is a sequence of rows with distinct keys where insertion
  order matters, and a Dafny `map` where it does not. `canonical` sorts member
  names and then builds an object, which lists integer-like names first; `Text.ByOwnKey`
  is the order that results.

## What does not hold, and exactly when it does

- `validateGatePlan` does not accept every plan that `createGatePlan` makes: a
  pull-request head that is present but not an object id is not recorded, and the
  check then falls back to the target commit. `PlanCheck.CreatedIsAccepted`
  proves acceptance if and only if the head is absent or well formed
  (`PlanCheck.GoodHead`), and `DocsExample.MalformedHeadIsRejected` gives a
  repository and an event for which a plan is made and refused.
- A documentation plan does not keep the bytes of source files out of what it lets
  change: the copy check looks at added, copied and renamed paths, not at modified
  ones. `DocsExample.ModifiedDocsMayCarrySourceBytes` gives a repository in which a
  documentation plan is made and a modified file takes over the bytes of a source
  file. `PlanCheck.DocsPlanKeepsSourceBytesOut` proves that a documentation plan
  keeps them out if and only if no modification in the diff brings them in; for
  added paths that is always so (`ChangeFacts.AddedDocsAreOwn`).
- A receipt need not answer for the last run of its key when runs overlap:
  `ReceiptOverlap.OverlapLeavesAStaleReceipt` gives the schedule.
  `ReceiptOverlap.ProvenExactlyWhenNothingIsLate` proves that it does, at every
  moment of every interleaving, if and only if no save comes after a later run of
  its key went past invalidation, unless that run has itself become a success of
  the same kind by then (`ReceiptOverlap.OverlapOfSuccessesIsProven`),
  and no save falls between the two look-ups of a run that goes past invalidation.
- Nor is there at most one kind of receipt for a key when runs overlap.
  `ReceiptOverlap.BothKindsExactlyWhenCrossing` proves that there are both if and
  only if a run looked for the other kind before that kind was saved, saved its own
  afterwards, and both saves stand; `ReceiptOverlap.OverlapLeavesBothKinds` gives
  the schedule. Overlap never makes a hit give another answer than running would
  (`ReceiptOverlap.HitsStayTruthful`).

## Model

| member | source | states |
|---|---|---|
| `ProcessTables.TreeIsLeast` | scripts/push-process-tree.mjs:44-53 | The tree of a root is the least set that holds the root group and is closed under children. |
| `ProcessTables.RelatedRows` | scripts/push-process-tree.mjs:46-54 | The closure loop ends, and yields exactly that least set, with every row outside the root group after the row of its parent. |
| `ProcessTables.OnePass` | scripts/push-process-tree.mjs:47-53 | A pass over the table either adds members of the tree or finds the rows closed and changes nothing. |
| `ProcessTables.SetRowKeepsPlaces` | scripts/push-process-tree.mjs:63 | Setting a key of an ordered map replaces its row in place; no other row moves. |
| `ProcessTables.AdoptAll` | scripts/push-process-tree.mjs:57-65 | Taking over a consistent observation leaves exactly the observed rows owned, earlier keys at their places, parents before children, whatever came before. |
| `ProcessStop.Examine` | scripts/push-process-tree.mjs:41-61 | A snapshot is acted on if and only if it has a row of the root that leads its group, every owned row has a row with its pid, parent and group in the tree, in whatever state, and no row of the tree is a zombie or has no group. |
| `ProcessStop.Adopt` | scripts/push-process-tree.mjs:62-65 | After a snapshot, SIGSTOP goes exactly to the rows not seen stopped; nothing is sent when all are; a denied signal is the last one. |
| `ProcessStop.FreezeRound` | scripts/push-process-tree.mjs:40-68 | A round fails only on a call that fails or on a snapshot that does not fit the one before it; otherwise it owns exactly the tree of the moment it saw, and is frozen exactly when that snapshot shows the whole tree stopped; a frozen round ends in that very state. |
| `ProcessStop.FreezeTree` | scripts/push-process-tree.mjs:35-69 | Up to twenty rounds: success means the whole tree is owned, stopped and unchanged since it was seen; otherwise a call failed, a snapshot did not fit, or twenty snapshots each showed something running; no kill is sent here. |
| `ProcessOs.HeldRun` | scripts/push-process-tree.mjs:70-71 | Whatever others do for as long as they like, a frozen tree stays held: waiting members stopped in place, the rest dying, no newcomer, no offspring. |
| `ProcessStop.HeldKill` | scripts/push-process-tree.mjs:72 | Killing the last waiting row hits a frozen, stopped member of the tree and keeps the rest held. |
| `ProcessStop.BackwardsIsChildrenFirst` | scripts/push-process-tree.mjs:72 | Kills in reverse order of the owned map never hit a parent before its child, outside the root group. |
| `ProcessStop.KillTree` | scripts/push-process-tree.mjs:70-72 | Each kill hits the very process that was frozen, still stopped and still owned; children first; a denied kill ends it; success means every owned row was signalled and nothing is left waiting. |
| `ProcessStop.ConfirmGone` | scripts/push-process-tree.mjs:73-82 | Confirmation means every process of the frozen tree is gone or a zombie, and none forked after the freeze is left; otherwise an observation failed, or the log ends with a hundred observations that do not show the tree dead. |
| `ProcessStop.StopPushProcessTree` | scripts/push-process-tree.mjs:30-87 | Over every run of the system: the root group is stopped first; a `null` result means the tree of a reachable, completely stopped state was killed whole, is gone or zombie, and left no live child; every kill was justified; no signal follows a failure; without a frozen state no kill is sent; and another result has its reason in what was seen: a failed call, a snapshot that did not fit, twenty that were not frozen, or a hundred that did not show the tree dead. When every call succeeds, the snapshots relate the tree alike, show no zombie in it and one of the first twenty shows it all stopped, the tree is frozen. |
| `ProcessStop.SteadyIsFrozen` | scripts/push-process-tree.mjs:40-69 | If every call succeeds, each snapshot has the tree of the one before with its parents and groups and no zombie, and one of the first twenty shows the tree stopped, then there is no reason not to freeze. |
| `Json.CanonicalKeepsMeaning` | scripts/change-plan.mjs:57-58 | A canonical copy is a value again and means the same tree of unordered members. |
| `Json.MeaningFixesCanonical` | scripts/change-plan.mjs:57-58 | Values that mean the same, whatever the member order at any depth, have one canonical copy. |
| `Json.CanonicalIsIdempotent` | scripts/ci-plan.mjs:35-36 | Canonicalising twice is canonicalising once. |
| `JsonText.WriteIsUnique` | scripts/ci-plan.mjs:37 | A serialised text has one reading: two values with one text (up to a delimiter) are equal. |
| `JsonText.ReadUndoesWrite` | scripts/change-plan.mjs:4 | A reader by the grammar of RFC 8259, with all escapes, gives every value back from its compact text, whatever follows. |
| `JsonText.CanonicalOrder` | scripts/change-plan.mjs:57-58 | In a canonical copy names that are array indices come first in numerical order, then the others in text order. |
| `JsonText.SerializeIsFaithful` | scripts/ci-plan.mjs:35-37 | Two values have one serialised text if and only if they are equal as trees with unordered members. |
| `JsonText.DigestIsFaithful` | scripts/ci-plan.mjs:38 | Route and plan digests are equal if and only if the values mean the same. |
| `RawDiff.FieldsUndoFrame` | scripts/change-plan-git.mjs:23-28 | Splitting NUL-framed text yields a list if and only if the text is the frame of that list. |
| `RawDiff.HeaderIsUnique` | scripts/change-plan-git.mjs:33-36 | A record header is accepted if and only if it is a colon and five well-formed words, and is read as those words. |
| `RawDiff.ParseRawChanges` | scripts/change-plan-git.mjs:29-45 | The loop over fields computes the recursive reading `Parse`. |
| `RawDiff.ParseUndoesPrint` | scripts/change-plan-git.mjs:29-45 | Every list of well-formed changes, with any ids and scores, is read back from its print, also when a path looks like a header. |
| `RawDiff.PrintUndoesParse` | scripts/change-plan-git.mjs:29-45 | Every accepted text is the print of the changes read from it. |
| `RawDiff.OnePathIsRead` | scripts/change-plan-git.mjs:33-43 | A record with one path gives an addition its new path, a deletion its old one and a change in place both; a mode of zeros is none. |
| `RawDiff.TwoPathsAreRead` | scripts/change-plan-git.mjs:33-43 | A rename or copy has the old path first and the new one second. |
| `RawDiff.ScoresArePercentages` | scripts/change-plan-git.mjs:33 | The score of a rename or copy is a number up to 100 in one to three digits. |
| `ChangeFacts.ClassifyChanges` | scripts/change-plan.mjs:19-37 | The verdict is `docs` if and only if the manifest is valid, history is complete and verified, and there are changes, all to ordinary documentation; otherwise the first reason is given. |
| `ChangeFacts.SourceDigestIsFaithful` | scripts/change-plan.mjs:54-56 | Two trees have one source digest if and only if they agree on every path outside documentation and the manifest: mode, kind and blob. |
| `ChangeFacts.DocsChangeNothingElse` | scripts/change-plan.mjs:19-37 | Changes classified as documentation leave every other path with its mode and blob. |
| `ChangeFacts.AddedDocsAreOwn` | scripts/change-plan.mjs:115-130 | Every added path is documentation, never carries bytes of a base file outside plain documentation, and a copy or rename has exactly the bytes of a base documentation file. |
| `ChangeFacts.OwnBytesExactlyWhenModificationsAreOwn` | scripts/change-plan.mjs:123-129 | Among changes that the copy check lets through, no changed path carries bytes of a base source file if and only if no modification does. |
| `DocsExample.ModifiedDocsMayCarrySourceBytes` | scripts/change-plan.mjs:123-129 | For every hash with the form of SHA-256 there is a repository with an exact diff in which a documentation plan is made although a documentation file it lets change takes over the bytes of a base source file. |
| `PlanRun.CreateGatePlan` | scripts/change-plan.mjs:93-150 | The planner, which fills in its variables step by step and can be thrown out at every call on git, makes a plan exactly for a target that can be planned for; the plan says `docs` exactly when event, history, changes, manifest, tests and tree allow it, passes the check exactly with a usable head, and with the documentation scope only documentation differs from the base. |
| `PlanFacts.DocsExactly` | scripts/change-plan.mjs:63-150 | A plan is made if and only if the target resolves to a tree of plain blobs with a test; it says `docs` if and only if the event is a push to an ordinary branch or a pull request with a full head, the base resolves in a repository that is not shallow and is an ancestor, as is the head, the diff is read and the base tree is there, some change is listed and all are ordinary documentation with bytes of their own, and the audited manifest, its readers and the source digest fit the target. |
| `PlanRun.ReasonsAreExact` | scripts/change-plan.mjs:75-149 | Each doubt is among the reasons of a plan exactly when the repository or the event gives cause for it: `history-incomplete` exactly when base, depth, an ancestry, the diff or the base tree is missing, and likewise for event, copies, selection, audit, topology and manifest. |
| `PlanFacts.ContextAllows` | scripts/change-plan.mjs:75-92 | The policy of events: a weaker gate is allowed exactly for pushes to branches other than main, release and release branches, and for pull requests with a full head. |
| `PlanFacts.DocsNames` | scripts/change-plan.mjs:16-17 | A documentation path is one of four files at the top or a Markdown file under docs or examples, with plain parts and a name of its own. |
| `PlanFacts.DocsChanges` | scripts/change-plan.mjs:24-36 | An ordinary change has plain documentation on every side that its status gives it, nothing on the other, and a modification stays in its place. |
| `PlanFacts.BorrowsAreAmbiguous` | scripts/change-plan.mjs:116-127 | Copies and renames must keep the bytes of the file they come from, and no added, copied or renamed documentation may have those of a base source file. |
| `PlanFacts.ManifestIsAudit` | scripts/change-plan.mjs:9-15 | A manifest is valid exactly when it lists the four files and two folders in any order, readers that are test files by plain paths, and a SHA-256 digest. |
| `PlanFacts.PlanRecordsTrees` | scripts/change-plan.mjs:144-149 | A plan names target commit and tree, and the tree of the base exactly when git knows the base. |
| `PlanFacts.PlanRecordsContext` | scripts/change-plan.mjs:75-106 | A plan records the kind of its event, the ref of a push to a well-formed branch, the head of a pull request when it is a full name, and the base when git knows it, each once and nothing else. |
| `PlanFacts.PlanRecordsDigests` | scripts/change-plan.mjs:63-74 | A plan has the digest of the discovered tests, and of the manifest, or of the object at its path when that cannot be read. |
| `PlanRun.Draft.ReadHistory` | scripts/change-plan.mjs:102-132 | The block that reads the history leaves exactly the facts it established before it failed, and marks them complete if and only if it did not fail; the head it looks up among the reasons is the recorded one. |
| `PlanRun.ReasonsExplainScope` | scripts/change-plan.mjs:130-149 | A plan has the documentation scope if and only if, besides its context, the only reason it gives is the ordinary one: every doubt shows. |
| `PlanCheck.ReasonsRecordContext` | scripts/change-plan.mjs:75-92 | The sorted reasons of a plan give back its event, ref, head and base, each at most once. |
| `PlanCheck.PlanIsRebuilt` | scripts/change-plan.mjs:160-163 | The context in the reasons leads to the same plan again when the head was absent or well formed, and to a different plan otherwise. |
| `PlanCheck.CreatedIsAccepted` | scripts/change-plan.mjs:151-166 | A made plan passes the check if and only if its pull-request head was absent or well formed. |
| `DocsExample.MalformedHeadIsRejected` | scripts/change-plan.mjs:84-89 | A plan is made for a pull request whose head is not an object id, and the check refuses it. |
| `PlanCheck.AcceptsExactlyMadePlans` | scripts/change-plan.mjs:151-166 | A value passes the check if and only if, member order aside, it is the plan made from some inputs with a usable head. |
| `PlanCheck.AcceptedPlansAgree` | scripts/change-plan.mjs:156-164 | Two accepted plans with one target and one list of reasons mean the same: scope, selection and base cannot differ. |
| `PlanCheck.DiscoveryMustMatch` | scripts/change-plan.mjs:165 | With a discovery list, an accepted plan passes if and only if the list is the discovery of its target. |
| `PlanCheck.DocsPlanChangesOnlyDocs` | scripts/change-plan.mjs:93-150 | If a plan says `docs`, base and target agree on every non-documentation path, their source digests agree, and additions are the documentation's own. |
| `PlanCheck.DocsPlanKeepsSourceBytesOut` | scripts/change-plan.mjs:93-150 | With a documentation plan and an exact diff, no changed path carries bytes of a base source file if and only if no modification in the diff does. |
| `DocsExample.DocsPlanIsMade` | scripts/change-plan.mjs:93-150 | Documentation plans exist: one is made for the example repository, for every hash with the form of SHA-256. |
| `PlanSelection.SelectionIsExact` | scripts/change-plan.mjs:135-149 | A made plan selects exactly the tests of its target that its scope calls for, under their digest and with the lane of its scope; a documentation plan always has a documentation test and every known external reader. |
| `PlanFacts.DocsNeedsPolicyAndAudit` | scripts/change-plan.mjs:75-92 | A documentation plan exists only for a push to an ordinary branch or a pull request with a full head, and only while the source digest of the target is the audited one. |
| `PlanFacts.OneAuditOneSource` | scripts/change-plan.mjs:141 | Two targets planned as documentation under one audited manifest have the same source files. |
| `PlanSelection.CiTakesSelection` | scripts/ci-results.mjs:21-22 | CI takes the selection of a made plan if and only if every test the scope calls for has a path CI can name. |
| `PlanSelection.DiscoveryIsTests` | scripts/validation-discovery.mjs:23-28 | Tree discovery lists exactly the test files of a tree, strictly sorted. |
| `PushRefs.ProtectedIsFull` | scripts/push-targets.mjs:89-92 | A ref to main or a release branch always needs the full scope. |
| `PushRefs.AssessIsSound` | scripts/push-targets.mjs:78-97 | A ref with scope `docs` has an authenticated docs plan for exactly its commit, tree, ref and base. |
| `PushRefs.AbsorbRepresents` | scripts/push-targets.mjs:101-114 | Joining a ref keeps all refs in order, the highest scope, and commit, plan and scope of one single ref. |
| `PushRefs.JoinTrees` | scripts/push-targets.mjs:99-114 | One target per distinct tree, in order of first appearance, each made of exactly the refs of its tree in order, with commit, plan and scope of the first ref that needs the highest scope. |
| `PushRefs.ResolvePushTrees` | scripts/push-targets.mjs:52-119 | Refused if and only if some ref has a bad name or cannot be resolved; otherwise each target has exactly the non-deletion refs that git resolves to its tree, in order, and asks for all tests as soon as one of them requires that, for the documentation subset if none does and one requires that, and for measurements only if all of them are measurements. |
| `PushRefs.TargetScopeExactly` | scripts/push-targets.mjs:78-114 | A target is measurement-only if and only if every ref of its tree goes to a measurement branch with a complete diff and is new or goes on from its verified ancestor; it is docs if and only if no ref requires all tests and one has a bound documentation plan. |
| `PushRefs.ScopeExactly` | scripts/push-targets.mjs:64-98 | A resolved ref requires `measurement-only` exactly for a measurement branch with a complete diff that is new or verified, `docs` exactly with a bound documentation plan otherwise, and `full` in all other cases; its recorded facts are those git gave. |
| `PushRefs.BindsExactly` | scripts/push-targets.mjs:18-29 | A plan is bound to a ref exactly when it is sealed, names its commit and tree, selects something, and its reasons have exactly one event, a push, and exactly one ref, this one. |
| `PushRefs.PlansAreThePush` | scripts/push-targets.mjs:53-98 | The resolved refs are the non-deletion refs of the push, in order. |
| `PushRefs.OneTargetPerTree` | scripts/push-targets.mjs:99-118 | No two targets share a tree, every resolved tree has one, and targets stand in the order in which their trees first appear. |
| `PushRefs.NoRefIsWeakened` | scripts/push-targets.mjs:101-114 | Every ref of the push that is not a deletion is in a target of its tree that asks for at least the scope of that ref. |
| `PushRefs.ScopeIgnoresOrder` | scripts/push-targets.mjs:107-111 | However the refs of a push are reordered, a tree gets the same scope. |
| `PushRefs.OrderKeepsPlans` | scripts/push-targets.mjs:53-98 | A reordered push is refused if and only if the original is, and otherwise the same refs resolve to the same facts and plans. |
| `PushRefs.DocsTargetIsBound` | scripts/push-targets.mjs:78-114 | A docs target has an authenticated docs plan of one of its own refs for exactly its commit and tree, and no protected ref shares the tree. |
| `PushRefs.DocsPushChangesOnlyDocs` | scripts/validate-push.mjs:36-43 | With the change planner as planner, a ref with scope `docs` changes only documentation from its base to its commit. |
| `PushCommand.StepKeepsInv` | scripts/push-targets.mjs:161-210 | Every event keeps the invariant, keeps a settlement, and never undoes a started cancellation. |
| `PushCommand.RunKeepsInv` | scripts/push-targets.mjs:151-215 | The invariant holds after every order of events. |
| `PushCommand.SettlesOnce` | scripts/push-targets.mjs:151-215 | Once settled at any point of any run, the settlement never changes. |
| `PushCommand.CancellationDecides` | scripts/push-targets.mjs:161-184 | Once cancelling, a command never resolves, settles exactly when the cancellation is done, and is unconfirmed if and only if the cancellation was. |
| `PushCommand.ResolvesOnlyCleanly` | scripts/push-targets.mjs:193-210 | A command resolves only after a close with code 0, with no abort up to the decision. |
| `PushSettlement.SettlementIs` | scripts/push-targets.mjs:151-215 | The handlers take exactly the orders of events that can be delivered, and a command settles as its events tell: by its cancellation if an abort came before error and close, else by an error before the decision, else by an abort before it, else by the exit code. |
| `PushSettlement.UninterruptedSettles` | scripts/push-targets.mjs:193-210 | Close, resume and, unless quiet, the paths: the command resolves if the exit code is 0 and fails the gate otherwise. |
| `PushSettlement.UndisturbedSettles` | scripts/push-targets.mjs:193-210 | With no abort and no error a command settles exactly when its decision comes, by its exit code. |
| `PushQuiet.QuietlyResolves` | scripts/push-targets.mjs:188-210 | A command that no abort reaches resolves if and only if its first close has code 0 and its decision comes before any error: the resumption after the close, and for a noisy command its paths after that. |
| `PushCommand.Command.OnAbort` | scripts/push-targets.mjs:161-184 | A cancellation starts if and only if the handler is still attached or one runs already; nothing is settled, and every promise of the handlers is kept. |
| `PushCommand.Command.OnError` | scripts/push-targets.mjs:188-192 | A cancelling command is not settled by an error; any other command is settled afterwards, and can no longer be cancelled. |
| `PushCommand.Command.OnClose` | scripts/push-targets.mjs:193-195 | The close settles nothing by itself and ends the chance to cancel. |
| `PushCommand.Command.OnResume` | scripts/push-targets.mjs:195-206 | After the wait, an unconfirmed or quiet command is settled; another one still relates its paths; resolution needs code 0 and no abort so far. |
| `PushCommand.Command.OnCancelDone` | scripts/push-targets.mjs:179-183 | The command was not settled before and is settled now, as interrupted or unconfirmed exactly as the cancellation ended. |
| `PushCheckout.Prepare` | scripts/push-targets.mjs:229-239 | Preparing a checkout creates nothing but the owned directory and removes nothing, for every interrupt. |
| `PushCheckout.Validate` | scripts/push-targets.mjs:240-244 | After an interrupt the callback is not called and the checkout is not audited after it; no error means no interrupt so far and a byte audit of the checkout as the last thing done. |
| `PushCheckout.RunCommand` | scripts/push-targets.mjs:126-215 | After an abort no command starts. A command run to its end, in every order of its events, is cancelled if and only if an abort reaches it before an error or its close, and ends unconfirmed if and only if it was cancelled without confirmation; a confirmed cancellation left a dead tree; without an interrupt it succeeds if and only if its first close has code 0 and its decision comes before any error. |
| `PushCheckout.WithPushCheckout` | scripts/push-targets.mjs:220-263 | For every interrupt schedule and every order of command events: the handlers listen during every await but those of the removals; the directory is created exactly when the caller's checkout does not serve and it can be; it is removed if and only if it was created and neither an interrupt nor an unconfirmed termination came before the handlers were off, after its worktree when that was registered; then no command was cancelled; nothing else is ever removed; the call returns normally if and only if there was no interrupt, every audit, command and callback went well and the removal did, and then exactly the audits and the callback of that course happened, in their order; every confirmed cancellation left a dead process tree, and every other one its mark. |
| `TreeCheck.StepKeepsValid` | scripts/push-tree-check.mjs:70-92 | Every step of every worker keeps the pool invariant, and `matches` never becomes true again. |
| `TreeCheck.StepShrinks` | scripts/push-tree-check.mjs:70-92 | Every step lessens the work that remains, so every schedule ends. |
| `TreeCheck.StepIsLogged` | scripts/push-tree-check.mjs:71-91 | The record a step finishes had been taken, is in no other hand and was not finished before. |
| `TreeCheck.EveryScheduleExaminesOnce` | scripts/push-tree-check.mjs:65-92 | For every schedule of the workers no record is examined twice, and when the workers are gone every record has been examined exactly once and the verdict is that of all records. |
| `TreeCheck.FollowEnds` | scripts/push-tree-check.mjs:70-92 | No schedule is longer than the work at its start. |
| `TreeCheck.RunPool` | scripts/push-tree-check.mjs:65-92 | The pool runs to its end under some schedule, and its verdict is that of all records: it matches if and only if all records do, and names and links are theirs; a failed read means a record that does not match. |
| `TreeCheck.Walk` | scripts/push-tree-check.mjs:103-117 | The recursive walk keeps `matches` if and only if every unknown file below is an accepted administrative file. |
| `TreeCheck.CheckoutMatchesCommit` | scripts/push-tree-check.mjs:51-120 | True if and only if git reports a complete, clean checkout of the tree with nothing hidden and usable dependencies, every tree record is on disk as this link or this file with its mode, readable and with its blob hash, every link ends at another, regular file of the tree, and every file by its path from the root is tracked or harmless, where only a repository and installed modules at the top are passed over. |
| `Selection.Walk.Visit` | scripts/push-selection.mjs:10-23 | The visit ends on every import graph, follows all links of what it adds, adds only what any closed set must hold, and fails only if such a set must hold an unreadable or outside file. |
| `Selection.ContractFiles` | scripts/push-selection.mjs:8-27 | The result is the least closed set holding both roots, with its bytes; none is given only if no such set is readable and inside. |
| `Selection.ContractIsUnique` | scripts/push-selection.mjs:8-27 | There is one such set of files. |
| `Selection.Gate.SupportsSelection` | scripts/push-selection.mjs:28-40 | True if and only if the test script is the expected one and the target is byte-equal on the whole contract, also when the contract is cached. |
| `Receipts.HitIsProven` | scripts/gate-cache.mjs:235-253 | A hit means the last run past invalidation for the key was of that kind, whole, passed and steady, and ended less than 24 hours ago; no other kind hits. |
| `Receipts.DecisionExactly` | scripts/gate-cache.mjs:235-253 | A receipt answers if and only if it is there, readable, of the current version, of this kind and key, and from 0 to under 24 hours old; every other answer has its own cause. |
| `Receipts.OneKindPerKey` | scripts/gate-cache.mjs:290-299 | At most one of the two kinds of receipt exists for a key. |
| `Receipts.Store.Invalidate` | scripts/gate-cache.mjs:290-299 | Both receipts of the key are gone, or the run is refused, exactly when one is left or cannot be looked up, or it was cut off between the two removals, which come in either order; other keys are untouched. |
| `Receipts.Store.SavePassed` | scripts/gate-cache.mjs:260-281 | The receipt is in place with the time at which the run ends, if and only if there are operations for it and the store can be written; otherwise nothing but swept old receipts has changed. |
| `Receipts.Store.RealRun` | scripts/run-tests.mjs:119-198 | The run comes to its end if and only if it is given the file operations it takes; then it is the last of the history; a failure leaves no receipt; a success leaves one if and only if it was whole, its inputs held still and one can be written, and that one hits. |
| `Receipts.Store.GateRun` | scripts/run-tests.mjs:104-198 | Reuse happens if and only if it is asked for and the receipt hits; it rests on a success that ended less than 24 hours ago and gives the verdict of the key. The history grows by exactly the run that went past invalidation, and not at all on reuse or refusal; a run is refused if and only if it gets to see that a receipt could not be removed or looked up; a run that passed has a receipt if and only if it was whole, steady and could write one, and then that hits; a cut-off takes fewer file operations than the run needs; the invariant survives being cut off anywhere. |
| `Receipts.RunAll` | scripts/run-tests.mjs:104-198 | In every sequential history, every answer a whole run gives, reused or not, is what running the tests gives. |
| `ReceiptOverlap.ProvenExactlyWhenNothingIsLate` | scripts/gate-cache.mjs:260-299 | For every interleaving of any number of runs: receipts answer for the last run past invalidation at every moment if and only if no save comes after a later run of its key went past invalidation without having succeeded in its place, and none falls between the two look-ups of a run that then goes past invalidation. |
| `ReceiptOverlap.ProvenExactlyUnlessStale` | scripts/gate-cache.mjs:260-299 | At the end of every interleaving, receipts answer for the last runs if and only if none was written by a run that had been overtaken. |
| `ReceiptOverlap.OneKindWhenNothingIsLate` | scripts/gate-cache.mjs:290-299 | Without such steps a key never has receipts of both kinds. |
| `ReceiptOverlap.BothKindsExactlyWhenCrossing` | scripts/gate-cache.mjs:260-299 | After every interleaving, a key has receipts of both kinds if and only if a run of the key looked for the other kind, then a receipt of that kind was saved, then the run saved its own, and neither receipt was removed, swept or rewritten afterwards. |
| `ReceiptOverlap.PresentExactlyWhenSaved` | scripts/gate-cache.mjs:260-299 | After every interleaving, a receipt is there if and only if some save of it has not been followed by an operation on it. |
| `ReceiptOverlap.HitsStayTruthful` | scripts/gate-cache.mjs:235-253 | However runs overlap, with deterministic tests a hit gives the answer that running gives. |
| `ReceiptOverlap.OverlapLeavesAStaleReceipt` | scripts/gate-cache.mjs:260-299 | A `test` and a `test-docs` run of one key, interleaved and deterministic, end with a hit although the last run past invalidation was of the other kind and failed. |
| `ReceiptOverlap.OverlapLeavesBothKinds` | scripts/gate-cache.mjs:260-299 | The same interleaving with two successes ends with receipts of both kinds for one key. |
| `ReceiptOverlap.OverlapOfSuccessesIsProven` | scripts/gate-cache.mjs:260-299 | A save after the entry of a later run leaves the receipt proven when that run has become a success of the same kind. |
| `WorkspaceLinks.ReadPackages` | scripts/gate-cache.mjs:141-148 | Accepted if and only if every package has a name and no name occurs twice; then the map is exactly the packages. |
| `WorkspaceLinks.MatchLinks` | scripts/gate-cache.mjs:157-168 | The loop that deletes from `expected` and the emptiness test accept if and only if entries and expected packages are in bijection. |
| `WorkspaceLinks.NamesAreInstalled` | scripts/gate-cache.mjs:150-158 | The installed names are known if and only if every scope can be read, and then are exactly the entries that are not scopes and the children of scopes under theirs. |
| `WorkspaceLinks.InstalledLinks` | scripts/gate-cache.mjs:127-173 | A list is returned if and only if the layout is known and stable and the entries other than the lockfile are in bijection with the packages, each a link to its own package directory. |
| `TestRun.TestBatches` | scripts/test-runner-plan.mjs:111-130 | The batches are nonempty consecutive pieces of the files; with every word counted as its characters and three more, each is within the length limit or a single file, and none has room for the first file of the next. |
| `TestRun.SplitIsUnique` | scripts/test-runner-plan.mjs:111-130 | There is only one way to split a list into consecutive pieces that fit and are filled as far as the limit allows. |
| `TestRun.Runner.RunBatches` | scripts/run-tests.mjs:129-151 | The batches pass if and only if none throws or fails; all run, or those up to the first that throws; the log has one event for each, and records are those collected, with timeouts replacing their file. |
| `TestRun.UpsertReplaces` | scripts/run-tests.mjs:145-149 | A timeout record takes the place of the first record of its file, or comes last when there is none. |
| `TestRun.Runner.Execute` | scripts/run-tests.mjs:104-198 | The outcome is `reused` if and only if a local run asks for it, its inputs are known and a fresh receipt of its own kind and key can be read: a full run is never answered by a documentation receipt; it is `passed` if and only if it is not reused, older receipts could be removed and template, batches, smoke test and cleanup went well. The phases of every run are exactly those: none after a reuse or a refusal, the smoke test only for documentation of which every batch passed, the cleanup always; in CI a passed run leaves a clean log and the collected records. |
| `TestRun.Runner.Keep` | scripts/run-tests.mjs:183-197 | A local success is fingerprinted again, and its last event tells whether a receipt was kept, or why not. |
| `TestRun.PersistedExactly` | scripts/run-tests.mjs:183-197 | A success reports its receipt as saved if and only if key and stamp are unchanged, a docs checkout is still exact and saving worked; every other report has its own cause. |
| `TestRun.Runner.Report` | scripts/run-tests.mjs:199-216 | Every run ends with a total event that carries its outcome. |
| `GateDiagnostics.ShownAll` | scripts/gate-diagnostics.mjs:64-69 | Records are written whole or dropped; none is dropped when all paths are relative, and equal numbers mean equal lists. |
| `CiEvidence.ShownExactly` | scripts/gate-diagnostics.mjs:17-19 | A file record is written exactly when its path is relative on every platform and made of plain names. |
| `CiEvidence.CleanKeeps` | scripts/gate-diagnostics.mjs:15-32 | An event keeps commit, tree, Node version, digests and shard exactly when they have their form. |
| `CiResults.PlatformWorkersAreTheTests` | scripts/ci-plan.mjs:31-34 | The test workers of a platform are exactly the table's test roles with that platform. |
| `CiResults.VerifyFiles` | scripts/ci-results.mjs:36-46 | The loop accepts exactly the manifests whose records name the files once each, all successes, with matching counts. |
| `CiResults.TallyEvents` | scripts/ci-results.mjs:47-63 | The loop accepts if and only if every event has the identity, result and count asked of it, and then counts phases and batch files exactly. |
| `CiResults.VerifyEvents` | scripts/ci-results.mjs:47-67 | Events are accepted if and only if every phase occurs the right number of times, no other does, batches add up, and the last event is the total. |
| `CiResults.VerifyCiTestManifest` | scripts/ci-results.mjs:32-69 | A proof is issued if and only if route, plan and worker fit and the manifest earns it; it is the expected proof of that worker and attempt. |
| `CiEvidence.FittingExactly` | scripts/ci-results.mjs:16-24 | A worker may run for a route and a plan if and only if it is a test worker of their scope, they share commit, tree and digests, its attempt is the planner's or a later one, its Node is version 24, and the selection is sorted and portable with files for it. |
| `CiEvidence.ProofExactly` | scripts/ci-results.mjs:25-31 | A proof says what the worker table and the route say, with the number and digest of exactly the files that fall to the worker by their position; three files at a time on Windows and four elsewhere. |
| `CiEvidence.AcceptsExactly` | scripts/ci-results.mjs:32-69 | A manifest is accepted if and only if its records are the files once each, all successes, nothing came from a receipt, and its events have the identity, tell each phase of a whole run as often as it happens, and end with the total. |
| `CiEvidence.IdentityExactly` | scripts/ci-results.mjs:50-54 | The identity asked of every event: row of the worker, commit and tree of the route, and plan and selection for documentation only. |
| `Decimals.NumbersAreOrdered` | scripts/ci-results.mjs:18 | Attempts compare as numbers: by length and then digit by digit. |
| `CiAgreement.CleanCounts` | scripts/run-tests.mjs:97-164 | A clean log has each phase once and batch events that add up to the files. |
| `CiAgreement.CleanLogIsAccepted` | scripts/ci-results.mjs:47-67 | The events of a run that went well pass the checker. |
| `CiAgreement.ProducerAndCheckerAgree` | scripts/run-tests.mjs:97-215 | A manifest is accepted if and only if the run took place in CI, its outcome is `passed`, reports were complete, the identity is the expected one, and every selected file has one successful record. |
| `CiAgreement.LocalRunIsRejected` | scripts/run-tests.mjs:104-116 | No manifest of a run outside CI, with a reused receipt or not, is accepted for any identity. |
| `CiAgreement.RunTests` | scripts/run-tests.mjs:97-215 | For everything that can happen to a run, in CI or not: the files are run in the batches of their one split; a run that is cut short leaves no manifest; otherwise its manifest is accepted for an identity if and only if it ran in CI, all phases of those batches went well with one success per file, and the identity is that one. |
| `CiAgreement.RunWorker` | scripts/ci-results.mjs:32-69 | A CI worker that runs the files of its plan, in the batches of their one split, gets the expected proof from the checker if and only if it was not cut short, the run was well done, and it ran under the identity of route and plan. |
| `CiAgreement.FilesAreUsable` | scripts/ci-results.mjs:16-31 | The files a worker is given are a nonempty strictly sorted list of test paths. |
| `Shards.PickMembers` | scripts/test-shards.mjs:30-35 | A shard holds exactly the files at its positions. |
| `Shards.PickIsStrict` | scripts/test-shards.mjs:30-35 | A shard of a strictly sorted list is strictly sorted. |
| `Shards.ExactlyOneShard` | scripts/test-shards.mjs:30-35 | For any number of shards, every file is in exactly one. |
| `Shards.TwoShardsAreAll` | scripts/macos-measurement.mjs:76 | Two shards together hold every occurrence of every file. |
| `Shards.DisjointExhaustive` | scripts/macos-measurement.mjs:119-122 | For any strictly sorted discovery list the disjointness and exhaustiveness test over validated shard records cannot fail. |
| `CiAggregate.VerifyCiAggregate` | scripts/ci-results.mjs:70-93 | Accepted if and only if the platform is known, the attempt is in time, the planner succeeded with this route, and exactly the platform's workers have what the route asks. |
| `CiEvidence.AggregateExactly` | scripts/ci-results.mjs:70-93 | A platform is accepted if and only if the planner succeeded with this route, its attempt is not in the future, and the jobs are exactly the test workers of the platform, each planned one with success and its own proof for this route from no later attempt, and each other one skipped without a proof. |
| `CiAggregate.AcceptedProofsAreCurrent` | scripts/ci-results.mjs:87-91 | Every counted proof names the planner's route digest and its worker, and lies between the planner's attempt and the current one. |
| `CiAggregate.RoutesDiffer` | scripts/ci-plan.mjs:88-97 | Routes with one digest come from one planner attempt. |
| `CiAggregate.HistoryIsTraced` | scripts/ci-results.mjs:70-93 | After every history of full and partial reruns, each job's proof was issued under the planner and attempt it ran in. |
| `CiRoute.RouteIsAuthentic` | scripts/ci-plan.mjs:88-97 | A route is taken if and only if it agrees with the route of this execution on every member but its attempt, which is not in the future; the retained route has the digest of the given one. |
| `CiRoute.DigestTellsAttempt` | scripts/ci-plan.mjs:91-96 | Among the routes an execution takes, digests are equal if and only if the planner attempts are. |
| `CiRoute.RouteSurvivesReruns` | scripts/ci-plan.mjs:91-96 | A route that is taken is taken again in every later attempt. |
| `CiRoute.PlannerRoutes` | scripts/ci-plan.mjs:75-87 | The routes of the attempts of one execution meet what the history claims assume of routes. |
| `CiHistory.AcceptedExactlyWhenCurrent` | scripts/ci-results.mjs:70-93 | After every history of full and partial reruns, with planner runs that succeed or fail, the aggregate of a platform is accepted if and only if the last planner run succeeded, every planned worker succeeded since then and every other was skipped. |
| `CiHistory.PlannerRerunRevokes` | scripts/ci-results.mjs:87-91 | After the planner runs again, a planned worker that does not run again makes the aggregate fail, and after a planner run that failed nothing is accepted: no earlier proof counts. |
| `CiHistory.WorkerRerunKeeps` | scripts/ci-results.mjs:87-91 | Rerunning only workers, successfully, keeps an accepted aggregate accepted. |
| `CiHistory.CountedManifest` | scripts/ci-results.mjs:32-69 | A manifest behind a counted proof has successes for exactly the worker's files. |
| `CiHistory.OneWorkerPerFile` | scripts/ci-plan.mjs:7-20 | In the worker table, every file goes to exactly one worker of a platform and scope. |
| `CiHistory.EveryFileSucceededOnce` | scripts/ci-results.mjs:70-93 | If an aggregate is accepted and its proofs were issued by the manifest checker, every selected file succeeded in exactly one worker of the platform. |

## Left out

- The product packages (`packages/*`: claims, decision graph, store journal, delivery).
- `ps` output parsing, `taskkill` on Windows and environment folding: platform plumbing.
- ProcessStop.StopPushProcessTree: speaks of processes in the tree at the frozen snapshot; a worker reparented before it can be invisible, as the header of the file says. Resource limits and pid exhaustion are not modelled, and a SIGSTOP may reach a process that took over a pid.
- TreeCheck.CheckoutMatchesCommit: the file system does not change during the check, a directory that cannot be listed is not modelled, and the text tests of an administrative file are one verdict per file.
- UTF-8 decoding of git output: text is a sequence of characters.
- Lone surrogates in JSON text and the numeric value of number texts: a number is its text.
- `parsePushRefs`, `pushEnvironment` and `withSelectionPlan`: simple filters and wrappers.
- Message texts and the writing of captured output of a child command.
- PushCheckout.WithPushCheckout: interrupts arrive while an await is pending; the two signals are one flag; the callback runs its commands one after the other and passes their errors on.
- The regular expressions that find imports: a trusted module comes with the list of its links.
- The computation of `testFingerprint`, `stable` and file observations: a snapshot is a key and a stamp.
- Receipts.Store.GateRun: sequential runs from an empty store with nondecreasing time; tests are deterministic in their key, as reuse presumes.
- TestRun.Runner.Execute: durations are natural numbers, and what a local run finds about its receipts is given to it; how receipts come about is in `Receipts` and `ReceiptOverlap`.
- CiResults.VerifyCiTestManifest: manifests and proofs are typed records, so tests for extra or missing members of a record become absent values.
- `createCiRoute` and `eventFacts`: the route an execution makes is a parameter, and the size limit of a route is a boolean.
- The fixed constants and timing sums of the macOS experiment; the shard claims hold for any discovery list.
- Discovery of tests on the file system (`discoverTestFiles`); plans use the discovery over a tree.
- Other scripts in `scripts/` (attribution, syntax, packaging, npm probing, previews) would only add easy members.
