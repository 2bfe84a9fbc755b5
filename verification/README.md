# Verified model of Sestina's decision core

A Dafny model of the parts of Sestina that decide, merge, migrate and confirm, with proofs of what they promise.
`dafny verify dfyconfig.toml` checks the whole project.

## What is modelled

**Contract patches and their concurrent merge.** `Contract`, `Patch`, `PatchApply` and `KeyedList` hold the task
contract, the sixteen patch operations, their logical fields, and strict and lenient application. `MergeSpec` says what
merging a *set* of proposals means, without any order; `Merge` is the algorithm with its maps, filters, sorts and reports,
proved against it; `MergeTheorems`, `MergeRule` and `SinglePatch` prove what the merge promises, `PatchRefusals` when a
strict apply refuses. `ContractRuns` follows whole
runs of applied proposals, `Directives` the operations parsed from one instruction, `CompilerIds`, `CompilerText` and
`PromptSpans` the identifiers, lines and spans of a compiled prompt.

**Configuration.** `ConfigJson`, `ConfigDiff`, `ConfigDiffRuns`, `ConfigReplay` and `ConfigWrite` model the two separately
written diffs, preview, confirmation and the guarded write; `ConfigPaths` and `ConfigKeys` say for which keys a dotted path
names one place, and that exactly those are safe; `ConfigMerge`, `ConfigSources`, `ConfigLayers` and
`ConfigMergeLaws` the layered merge with its source map and the tighten-only project layer.

**Crash-safe protocols.** `BriefPublisher`, `ProviderMigration` and `LanguageMigration` are step machines whose only lasting
variables are files and rows. A crash may fall between any two durable writes (`DurableWrites`). Each comes with the code
as a class whose methods are proved to take exactly the machine's steps.

**Sessions.** In `KernelSession`, `TrustedCommands` and `Updater` every await is a point where any other call may come in.
`TrustedCommands` runs on top of the session machine. `UpdatePolicy` decides which offers are accepted.

**Decisions.** `PathCoverage` and `Authority` resolve who may hand work over; `Evaluation` decides which
predictions are taken and what the gates say, `EvaluationMetrics` measures them.

`Ordering` holds text order and sorting for all of them.

Digests (SHA-256) are injective: a digest is modelled by what is hashed. Validity against a schema, signatures and
regular expressions are given predicates or values. Clocks, network answers and whether a write or a close succeeds are
parameters of the events. Text is ordered character by character.

## Findings

- A proposal that adds a preauthorization and then supersedes it applies strictly but, merged alone, does nothing at that
  field; that is the only difference (`SinglePatch.SingleMergeIsStrictApply`).
- The hash shown at preview is the hash recomputed at apply exactly when every proposed object faces an object and no array
  of objects was only rewritten in another key order; adding an object, or replacing a plain value by one, can never be
  confirmed (`ConfigWrite.PreviewHashMatchesExactlyWhenAlike`).
- A key with a dot shares its diff path with the nested keys the dot splits it into, and an empty key with its neighbours:
  one confirmed hash, two documents. The round trip and the confirmation are sound for a set of keys exactly when its
  paths are unambiguous (`ConfigKeys.SafeExactlyWhenUnambiguous`, `ConfigKeys.DottedKeysShareADiff`).
- The source map joins keys with the same dots: a layer's `privacy.retentionDays` is named as the source of the built-in
  value nested there, although that stays in force. The map is true for a set of keys exactly when its paths are
  unambiguous (`ConfigSources.MapIsTrueExactlyWhenUnambiguous`, `ConfigSources.DottedKeyTakesADefaultsName`).
- When the final schema check refuses a loaded configuration the defaults are returned with the source map of what was
  refused (`ConfigLayers.RefusedLoadMisnamesExactlyWhatLayersSet`).
- A call budget of 2^53 or more passes its field validator and is refused only by the final schema check, as an internal
  error (`ContractRuns.ResultIsRefusedExactlyWhenUnsafe`, `ContractRuns.UnsafeBudgetIsRefusedLate`).
- The source comment says an exact repeat of a directive is deduplicated; the statements compared include their spans, so
  repeated statements that carry one are reported as conflicting (`Directives.RepeatsAreReportedWhereSpansDiffer`).
- In `open` and `repairBrief` the old session is closed after the opening flag is raised and outside the `try`: exactly when
  that close throws, nothing can be opened, created, repaired or maintained any more
  (`KernelSession.OpeningSticksExactlyWhenCloseThrows`, `KernelSession.StuckForever`).
- A late handle whose close throws is closed a second time, and no other handle ever is
  (`KernelSession.HandlesCloseTwiceExactlyWhenLate`).
- `revoke` during the second snapshot reading does not stop a confirmed command; before the answer it always does
  (`TrustedCommands.RevokedCallRunsExactlyWhenUnderWay`).
- A Brief edited between the last comparison and the rename is replaced (`BriefPublisher.CheckThenRenameCanLoseAnEdit`).
- A Brief recorded under neither hash is replaced, with no edit in that window, when the publisher was overtaken by another
  one and the file it had found is put back: the second transaction compares with the file it found, not with the row
  (`BriefPublisher.UnrecordedFileIsReplacedExactlyWhenDisplaced`).
- An update record saved as `installed` is reported as such after a restart even when another program is running
  (`Updater.RestartIsSettled`).
- The installer is launched with whatever the download's file holds by then: nothing reads it again between its last
  verification and the launch (`Updater.ChangeBeforeLaunchGoesUnnoticed`).
- The language migration is applied again when the user puts back exactly the old preferences before its marker is complete
  (`LanguageMigration.AppliedTwiceExactlyWhenRestoredBetween`), although the source comment says a later preference wins.
- The merge's documentation promises an outcome independent of arrival order; among refused proposals the reported refusal
  is independent of it exactly when all are refused alike (`MergeTheorems.RefusalIgnoresOrderExactlyWhenAllAgree`).

## Model

| member | source | states |
|---|---|---|
| `Patch.KeyTextInjective` | packages/contracts/src/patch.ts:649-731 | One key string names one logical field: no two fields of different kinds or identities share a key |
| `PatchApply.ApplyPatchOperations` | packages/contracts/src/patch.ts:858-1119 | The loop over the working copy computes the specified application, first rejected operation included |
| `PatchApply.ApplyOneIsPointwise` | packages/contracts/src/patch.ts:858-1119 | One operation changes its own field by its effect and leaves every other field of the contract alone |
| `PatchApply.ApplyAllIsPointwise` | packages/contracts/src/patch.ts:858-1119 | After any successful apply each field holds the combined effect of the operations on it, in order |
| `PatchApply.ApplyAllKeepsHeaderAndUnique` | packages/contracts/src/patch.ts:843-857 | No sequence of operations writes attribution, version or timestamps, and list identities stay unique |
| `PatchApply.LenientFailure` | packages/contracts/src/patch.ts:739-751 | Lenient application fails exactly when some scalar value is invalid |
| `PatchApply.LenientOperationsCommute` | packages/contracts/src/patch.ts:858-1119 | Lenient operations on different fields commute, up to list order, failures included |
| `PatchApply.StrictRefinesLenient` | packages/contracts/src/patch.ts:858-1119 | Whenever strict application succeeds, lenient application gives the identical result |
| `PatchRefusals.StrictStepFailsExactlyWhen` | packages/contracts/src/patch.ts:874-1117 | A strict step fails exactly when it adds what its field already holds or the proposal already introduced, removes or supersedes what is not held, upserts one deliverable twice, or sets an invalid value; each with its own error |
| `PatchRefusals.StrictFailsExactlyAtFirstRefused` | packages/contracts/src/patch.ts:858-1119 | A strict apply succeeds exactly when no operation is refused, given what those before it mean at its field; otherwise its error is that of the first refused one |
| `KeyedList.PutKeepsPlaces` | packages/contracts/src/patch.ts:893-903 | Adding or replacing leaves every other item in its place and puts a new one last |
| `KeyedList.DropKeepsPlaces` | packages/contracts/src/patch.ts:904-917 | Removing closes the gap and keeps the order of the others |
| `Merge.LastOperations` | packages/contracts/src/merge.ts:111-119 | The per-proposal map holds exactly the touched fields, each with the last operation on it |
| `MergeSpec.LastOpIsLast` | packages/contracts/src/merge.ts:111-119 | The operation that counts is one after which no other of the proposal is on that field |
| `Merge.CollectContributions` | packages/contracts/src/merge.ts:111-122 | Exactly one contribution per proposal and touched field |
| `Merge.GroupByField` | packages/contracts/src/merge.ts:124-130 | The groups are the contributions of each touched field, in order of arrival |
| `Merge.TopCandidates` | packages/contracts/src/merge.ts:136-158 | What survives the tier and instant filters is exactly what nothing in the group outranks |
| `Merge.ResolveGroups` | packages/contracts/src/merge.ts:132-205 | Every touched field is decided once: a single winner with all its superseded rivals, or a reported tie |
| `Merge.RelationOrder` | packages/contracts/src/merge.ts:214-218 | Sorting by winner id and then superseded id is sorting by the relation key when ids have one length |
| `Merge.MergeConcurrentPatches` | packages/contracts/src/merge.ts:77-219 | The method's outcome is the merge of the set of proposals as MergeSpec defines it, and its refusal is the first rejected proposal's |
| `MergeRule.MergedExactlyWhenAllTargetBase` | packages/contracts/src/merge.ts:81-109 | Proposals are merged exactly when each satisfies the schema and targets the base contract, its task and its version |
| `MergeRule.BestTierThenLatestWins` | packages/contracts/src/merge.ts:134-181 | Each touched field holds the last operation of one proposal; every other on the field has a lesser tier, or its tier and an earlier instant, and is recorded as superseded by it, with both tiers and instants |
| `MergeRule.ConflictedExactlyWhenTiedAtTop` | packages/contracts/src/merge.ts:134-210 | The outcome is a conflict exactly when two proposals touch one field at the same tier and instant and none there has a better tier, or that tier and a later instant |
| `MergeRule.SupersededFellBehind` | packages/contracts/src/merge.ts:161-181 | Every recorded relation is between a proposal at the top of some field and one that falls behind it there |
| `MergeRule.ConflictShowsEverySide` | packages/contracts/src/merge.ts:183-205 | For every tied field there is a conflict that lists each tied proposal once, in id order, with tier, references and instant, and is known by the field and those ids |
| `MergeRule.EveryConflictIsATie` | packages/contracts/src/merge.ts:183-205 | Every reported conflict is such a list for some field |
| `MergeSpec.JoinIdsFromTheFront` | packages/contracts/src/merge.ts:180-189 | The ids of a tie are joined in id order, each once, with a comma between neighbours |
| `MergeTheorems.OutcomeIsUnique` | packages/contracts/src/merge.ts:68-76 | A set of proposals has one outcome: kind, contract with its list order, superseded list and conflict list |
| `MergeTheorems.MergeIsOrderIndependent` | packages/contracts/src/merge.ts:68-76 | A permutation of the proposals is admitted exactly when the original is, and gives the identical outcome |
| `MergeTheorems.RefusalIgnoresOrderExactlyWhenAllAgree` | packages/contracts/src/merge.ts:81-109 | The refusal reported is the same for every order of arrival if and only if all refused proposals are refused alike |
| `MergeTheorems.MergeIsPointwise` | packages/contracts/src/merge.ts:207-213 | Each touched field of the merged contract holds the effect of its winner's last operation on the base; all else is the base's |
| `MergeTheorems.ContributionsAreConserved` | packages/contracts/src/merge.ts:159-205 | Conflicted exactly when some top class holds two proposals; otherwise each contribution wins its field or is recorded as superseded by the winner |
| `MergeTheorems.DroppingDominatedChangesNothing` | packages/contracts/src/merge.ts:136-181 | A proposal outranked on every field it touches can be dropped without changing contract or conflicts |
| `SinglePatch.AloneMerges` | packages/contracts/src/merge.ts:132-219 | A proposal that applies strictly merges alone: no conflict, no failed replay |
| `SinglePatch.SingleMergeIsStrictApply` | packages/contracts/src/merge.ts:111-122 | A proposal that applies strictly merges alone to the same keyed view if and only if it does not add and then supersede one preauthorization |
| `SinglePatch.AddThenSupersedeApplies` | packages/contracts/src/patch.ts:1085-1117 | The exception exists: adding and then superseding one grant applies strictly |
| `ContractRuns.AssertInferredOperationsAdmissible` | packages/contracts/src/extractor-port.ts:45-75 | The fence admits a list of operations exactly when each of them is one inference may make |
| `ContractRuns.ApplyContractPatch` | packages/contracts/src/patch.ts:1255-1319 | The guards in order, then a strict apply one version ahead, stamped with the proposal's time |
| `ContractRuns.AppliesExactlyWhen` | packages/contracts/src/patch.ts:1255-1319 | A proposal applies exactly when it satisfies its schema, targets this contract, task and version, makes only what it may infer when inferred, has no refused operation and leaves nothing unsafe |
| `ContractRuns.InferableExactlyWhen` | packages/contracts/src/extractor-port.ts:45-75 | Inference may make every operation but a preauthorization, an authority policy, and a boundary that is not its own, hard, not overridable, or about authority |
| `ContractRuns.ValidatorsMirrorSchema` | packages/contracts/src/patch.ts:774-795 | The operations' validators take exactly what the schema takes, field by field, but for call budgets beyond 2^53-1 |
| `ContractRuns.ApplyAdvancesOneVersion` | packages/contracts/src/patch.ts:1296-1318 | A successful apply is one version ahead, keeps attribution and creation time, takes the proposal's time, satisfies the contract schema with its safe-integer bounds, and keeps identities unique that were |
| `ContractRuns.ResultIsRefusedExactlyWhenUnsafe` | packages/contracts/src/patch.ts:1310-1318 | For a contract of the schema the final schema check refuses what the operations produced if and only if they leave a tool-call or provider-call budget beyond 2^53-1, or the version is 2^53-1 |
| `ContractRuns.UnsafeBudgetIsRefusedLate` | packages/contracts/src/patch.ts:755-758 | It happens: setting a call budget to 2^53 passes its own validator and ends in the internal error |
| `ContractRuns.RunCountsVersions` | packages/contracts/src/versioning.ts:26-31 | Over any run of applies from any contract the version is the first one plus the number of proposals, and the last contract satisfies the schema |
| `ContractRuns.NoProposalAppliesTwice` | packages/contracts/src/versioning.ts:7-24 | After a proposal is applied, whatever follows, it never applies again |
| `ContractRuns.InferredRunGainsNoAuthority` | packages/contracts/src/extractor-port.ts:28-75 | Over any chain of inferred proposals the authority policy stays, no stronger boundary appears, no grant is added or activated |
| `Directives.SelectDirectives` | packages/contracts/src/patch.ts:547-558 | Accepted ranges follow one another without overlap, and of the matches of one range the first found is taken; a match is dropped only for an accepted one that overlaps it and starts before it, or with it and ends no earlier |
| `Directives.ResolveDuplicateDirectives` | packages/contracts/src/patch.ts:592-634 | The last statement on each field is kept, each field once; a field is reported exactly when two statements on it differ, their spans included |
| `Directives.KeptIsLast` | packages/contracts/src/patch.ts:599-615 | What is kept is followed by no later operation on its field, and every field stated has one |
| `Directives.RepeatsAreReportedWhereSpansDiffer` | packages/contracts/src/patch.ts:586-610 | A report needs a field stated twice, and among operations with distinct spans every field stated twice is reported, exact repeats too |
| `Directives.CollapseRepeatedUpserts` | packages/contracts/src/patch.ts:448-485 | Order is kept; what is missing directly follows a kept upsert of the same deliverable, and no two kept neighbours are upserts of one deliverable |
| `Directives.ParseDirectives` | packages/contracts/src/patch.ts:547-584 | From the accepted matches the last statement on every field survives, save for upserts repeated in a row; fields are pairwise distinct, all were stated, and exactly the contradicted ones are reported |
| `CompilerIds.DeterministicId` | packages/contracts/src/compiler.ts:768-783 | The wrapping 32-bit accumulator writes the five-bit grouping of the first 128 bits (section 6 of RFC 4648, Crockford's letters) |
| `CompilerIds.FiveBitsAt` | packages/contracts/src/compiler.ts:776-779 | Shifting and masking the wrapped accumulator reads the right five bits of the whole number |
| `CompilerIds.EncodingIsInjective` | packages/contracts/src/compiler.ts:768-783 | Two digests with one identifier agree in all 128 bits |
| `CompilerText.SplitLines` | packages/contracts/src/compiler.ts:181-193 | Every line slices back to its text and exactly one line break lies between two lines; a carriage return before a break is the break's |
| `CompilerText.DirectiveSpan` | packages/contracts/src/compiler.ts:232-236 | The span slices the prompt back to the text, within the line, exactly when the text is a piece of the line |
| `CompilerText.Clip` | packages/contracts/src/compiler.ts:785-793 | Any text, well formed or not: a beginning is kept, the result fits save for two limits no caller uses, a surrogate pair is cut exactly where a lone low half follows it at the limit, and well-formed text stays so |
| `PromptSpans.ParsePrompt` | packages/contracts/src/compiler.ts:214-498 | The directives read are exactly what the lines add, each list in order and everything left out counted; each is the exact text its span slices out of the prompt; an objective exists exactly when some line is not blank |
| `PromptSpans.KeptUnder` | packages/contracts/src/compiler.ts:376-494 | Under which list a line's directive is kept, and with which text: by the first header it matches, by the section under way, or by its own marker |
| `PromptSpans.OnlyTheseLinesAddNothing` | packages/contracts/src/compiler.ts:461-494 | No directive vanishes silently: a line that adds nothing is blank, an empty header or item, holds the objective, or stands outside every section without a marker |
| `PromptSpans.Objective` | packages/contracts/src/compiler.ts:250-281 | There is an objective exactly when some line is not blank; it is that line's leading sentence, else the prompt's, else the line, and its span slices the prompt back to it |
| `PathCoverage.StripTrailingSlashes` | packages/contracts/src/collaboration-authority.ts:66-72 | The loop removes exactly the trailing slashes |
| `PathCoverage.CoverageIsSegmentPrefix` | packages/contracts/src/collaboration-authority.ts:74-93 | A grant covers a path exactly when neither climbs with '..' and the grant is '.' or its segments are non-empty and come first in the request's |
| `PathCoverage.CoverageIsTransitive` | packages/contracts/src/collaboration-authority.ts:85-93 | What covers a covering path covers what it covers |
| `Authority.OverreachReasons` | packages/contracts/src/collaboration-authority.ts:203-254 | A live grant of evidence has no reason against it exactly when it matches in version and scope; a vague one has the vague reason only, any other exactly the drift and what is left out |
| `Authority.ResolveCollaborationAuthority` | packages/contracts/src/collaboration-authority.ts:269-326 | Authorized exactly on a full match or a bound confirmation; the user is asked exactly when live evidence is left; a refusal says how each grant of evidence ended, or that there is none |
| `Authority.LivingEvidenceExactlyWhen` | packages/contracts/src/collaboration-authority.ts:45-156 | Evidence is what a direct user confirmed on a desktop or command-line channel about this project, task and pair of endpoints; it lives while active, not superseded and before its deadline |
| `Authority.GrantAuthorizesExactlyWhen` | packages/contracts/src/collaboration-authority.ts:158-187 | A grant authorizes exactly when it is living evidence, vague about nothing, for the current version, and every deliverable, path and action asked for is within it |
| `Authority.ConfirmationReleasesExactlyWhen` | packages/contracts/src/collaboration-authority.ts:107-138 | A confirmation releases exactly when a direct user gave it for this very handoff and all that is asked for is within it |
| `Authority.NarrowingIsSafe` | packages/contracts/src/collaboration-authority.ts:107-187 | Asking for fewer deliverables, actions and covered paths stays authorized, by the same grant or confirmation |
| `Authority.PeerEvidenceIsInvisible` | packages/contracts/src/collaboration-authority.ts:45-56 | Taking away a grant confirmed over a peer channel, wherever it stands, changes neither who is authorized nor who is asked |
| `ConfigDiffRuns.ComputeSimpleDiff` | packages/config/src/atomic-write.ts:163-203 | For all documents the apply-time diff holds exactly the entries some key reports; each path once and in order unless two keys report a common path |
| `ConfigDiffRuns.ComputeDiff` | packages/config/src/preview.ts:50-128 | The preview's diff, its double recursion deduplicated, invents no entry and loses no path; each path once and in order unless two keys report a common path |
| `ConfigDiffRuns.Dedup` | packages/config/src/preview.ts:113-122 | Keeps one entry for each path and kind and loses none |
| `ConfigDiff.SimpleEntrySaysWhatChanged` | packages/config/src/atomic-write.ts:163-203 | Every entry of the apply-time diff holds what stood and what is to stand at its place, differing, and its kind says which of the two there is |
| `ConfigDiff.LeafEntrySaysWhatChanged` | packages/config/src/preview.ts:50-128 | So does every entry of the preview's diff |
| `ConfigDiff.DiffsAgreeExactlyWhenAlike` | packages/config/src/preview.ts:57-78 | The two diffs are the same list if and only if every proposed object faces an object at its place and no value compared as a whole was only rewritten in another key order |
| `ConfigDiff.FlatArraysAreWrittenAlike` | packages/config/src/atomic-write.ts:190 | The second condition always holds where arrays hold no objects |
| `ConfigDiff.UnambiguousIsSimpleApart` | packages/config/src/atomic-write.ts:172 | With unambiguous keys no two keys of the apply-time diff report a common path, at any depth |
| `ConfigDiff.UnambiguousIsLeafApart` | packages/config/src/preview.ts:59 | Nor do two keys of the preview's diff |
| `ConfigPaths.UnambiguousExactlyWhenPlain` | packages/config/src/preview.ts:59 | Where a key comes with the parts its dots split it into, keys are unambiguous if and only if none is empty or has a dot |
| `ConfigPaths.JoinIsInjective` | packages/config/src/merge.ts:17 | A dotted name tells its path when keys have no dot |
| `ConfigReplay.DiffIsEmptyExactlyWhenEqual` | packages/config/src/atomic-write.ts:163-203 | The diff is empty exactly when the documents are equal up to key order |
| `ConfigReplay.ReplayRestoresProposal` | packages/config/src/atomic-write.ts:163-203 | Replaying the diff of two documents onto the first gives the second, for every unambiguous set of keys |
| `ConfigKeys.SafeExactlyWhenUnambiguous` | packages/config/src/atomic-write.ts:41-60 | For any set of keys, the round trip holds if and only if the keys are unambiguous, and exactly then one confirmation over one file fits one document |
| `ConfigKeys.DottedKeysShareADiff` | packages/config/src/atomic-write.ts:172 | Every key with a dot after its first character shares one diff with the nested keys the dot splits it into: one confirmation, two documents |
| `ConfigKeys.EmptyKeySharesADiff` | packages/config/src/atomic-write.ts:172 | What an empty key holds shares one diff with what stands beside it |
| `ConfigWrite.PreviewHashMatchesExactlyWhenAlike` | packages/config/src/preview.ts:23-48 | For an unchanged file and proposal the previewed hash is the recomputed one under exactly those two conditions |
| `ConfigKeys.ConfirmableExactlyWhenUnambiguous` | packages/config/src/preview.ts:113-122 | For any set of keys, the two conditions decide whether preview and apply hash alike for all documents over them if and only if the keys are unambiguous; over all others the preview drops an entry the apply keeps |
| `ConfigWrite.ConfirmationAdmitsOneDocument` | packages/config/src/atomic-write.ts:41-60 | With unambiguous keys two proposals over one file hash alike if and only if they are equal up to key order |
| `ConfigWrite.PreviewConfigChange` | packages/config/src/preview.ts:23-48 | The hash covers scope, version and the listed diff |
| `ConfigWrite.ConfigFile.ApplyConfirmedConfigChange` | packages/config/src/atomic-write.ts:20-154 | Written exactly when provenance, hash, version and place are right, otherwise unchanged with the error of the first that is not; what is written is the confirmed diff replayed onto the file |
| `ConfigMerge.MergeConfigs` | packages/config/src/merge.ts:7-41 | The recursive loop computes the merge and writes the shared source map as specified |
| `ConfigMerge.MergedLeaf` | packages/config/src/merge.ts:7-41 | A leaf of the merge is the layer's when the layer leads anywhere along its path, and the base's otherwise |
| `ConfigMerge.MarkedAtName` | packages/config/src/merge.ts:33-37 | Whatever the keys, the source map renames exactly the dotted names of the layer's leaves |
| `ConfigMerge.SourceIsTrueExactlyWhenUntouchedLater` | packages/config/src/load.ts:20-46 | With unambiguous keys the map names the last layer that sets a leaf, and that layer's value is the one in force if and only if no later layer leads along its path |
| `ConfigMerge.CompatibleLayersKeepProvenance` | packages/config/src/load.ts:20-46 | For shape-compatible layers with unambiguous keys each named leaf comes from the highest layer that sets it, and the map names that layer |
| `ConfigSources.MapIsTrueExactlyWhenUnambiguous` | packages/config/src/merge.ts:17 | For any set of keys that promise holds for all shape-compatible stacks over them if and only if the keys are unambiguous |
| `ConfigSources.DottedKeyTakesADefaultsName` | packages/config/src/merge.ts:33-37 | A layer's dotted key, for every way a name splits at a dot, takes the name of the built-in value at the nested place, which stays in force |
| `ConfigSources.NestedKeysTakeADottedName` | packages/config/src/merge.ts:33-37 | The other way round: nested keys of a later layer take the name of an earlier layer's dotted key, whose value stays in force |
| `ConfigMergeLaws.MergeAssociatesExactlyWhen` | packages/config/src/merge.ts:19-37 | Merging three layers is associative if and only if no plain value between two objects hides something the last does not replace |
| `ConfigMergeLaws.PlainValueBreaksAssociativity` | packages/config/src/merge.ts:19-37 | A plain value between two objects makes the two groupings differ |
| `ConfigMergeLaws.MergeIsInvisibleExactlyWhenCovered` | packages/config/src/merge.ts:19-37 | A base leaves no trace under a layer exactly when the layer covers it key by key |
| `ConfigLayers.FilteredIsClean` | packages/config/src/load.ts:75-91 | The filtered project layer holds no forbidden key at any depth, inside arrays included |
| `ConfigLayers.FilterKeepsTheRest` | packages/config/src/load.ts:75-91 | The filter removes what lies at or below a forbidden key and keeps every other leaf |
| `ConfigLayers.SanitizeProjectCollaboration` | packages/config/src/load.ts:123-194 | The loop keeps exactly the admissible settings and reports exactly the rejected ones |
| `ConfigLayers.ProjectMaySetExactly` | packages/config/src/load.ts:139-194 | Key by key, what a project may set and what is rejected: only closing, a stricter policy, the same direction, or a ceiling at or below one that is set |
| `ConfigLayers.ProjectSetsWhatItMay` | packages/config/src/load.ts:196-216 | After a project layer each collaboration setting is the project's where it may set it and as before everywhere else |
| `ConfigLayers.ProjectNeverLoosens` | packages/config/src/load.ts:93-216 | Whatever the project layer says, the collaboration settings after it allow nothing they did not allow before |
| `ConfigLayers.ProjectLayerIsClean` | packages/config/src/load.ts:33-40 | The layer actually merged, filtered and tightened, holds no forbidden key at any depth |
| `ConfigLayers.LoadEffectiveConfig` | packages/config/src/load.ts:11-60 | The loop merges environment, user, project, contract and request in this order over the defaults; with unambiguous keys and compatible shapes every value named comes from the highest layer that sets it; when the schema refuses the result the defaults are returned under the same names |
| `ConfigLayers.HighestLayerDecides` | packages/config/src/load.ts:20-46 | A leaf the request sets is the request's and named so, otherwise the contract's, the filtered and tightened project's, the user's, the environment's, otherwise the default |
| `ConfigLayers.RefusedLoadMisnamesExactlyWhatLayersSet` | packages/config/src/load.ts:48-60 | After a refused load the map names a layer for exactly the leaves some layer sets, though the values are the defaults |
| `BriefPublisher.RunKeepsSound` | packages/core/src/kernel-brief-publisher.ts:34-118 | In every interleaving of publishers, crashes, revision changes and outside edits a transaction holder is at the head revision and every plan is for a recorded file |
| `BriefPublisher.PreparedExactlyWhen` | packages/core/src/kernel-brief-publisher.ts:34-76 | What the first transaction refuses, and what it plans and records otherwise |
| `BriefPublisher.InstalledExactlyWhen` | packages/core/src/kernel-brief-publisher.ts:80-113 | The second goes on exactly when revision and file are those of the first, installs exactly when nothing appeared where nothing was, and records the document as ready |
| `BriefPublisher.QuietRunKeepsSettled` | packages/core/src/kernel-brief-publisher.ts:34-118 | Without outside edits a present file is always the recorded content or the pending one, and a ready row's file is the document of its revision |
| `BriefPublisher.RetryIsNeverRefused` | packages/core/src/kernel-brief-publisher.ts:49-61 | A publication let in once is let in again with the same flag after any run without outside edits |
| `BriefPublisher.SoloRetryCompletes` | packages/core/src/kernel-brief-publisher.ts:34-118 | Such a retry, left alone, publishes the head revision's document |
| `BriefPublisher.CommittedReadyIsTrue` | packages/core/src/kernel-brief-publisher.ts:107-113 | A committed ready names the revision whose document the file is |
| `BriefPublisher.UnrecordedFileIsReplacedExactlyWhenDisplaced` | packages/core/src/kernel-brief-publisher.ts:87-105 | Only an install replaces a file; unless it was edited after the last comparison, a file recorded under neither present hash is replaced exactly when another publication was committed, or prepared over another file, since this one was prepared |
| `BriefPublisher.UnrecordedFileCanBeReplaced` | packages/core/src/kernel-brief-publisher.ts:87-105 | It happens without any edit after the comparison: overtaken by another publication, with the file put back, a publisher replaces a file recorded under neither hash |
| `BriefPublisher.RacedEditIsLost` | packages/core/src/kernel-brief-publisher.ts:87-105 | Where a file was expected, whatever edit lands in that window is replaced by the head revision's document |
| `BriefPublisher.CheckThenRenameCanLoseAnEdit` | packages/core/src/kernel-brief-publisher.ts:87-105 | From every settled state with a file, a file the row never named can be lost in that window |
| `BriefPublisher.KernelBrief.Publish` | packages/core/src/kernel-brief-publisher.ts:27-123 | The two transactions as written take exactly the machine's steps, stopped at each injection point |
| `ProviderMigration.ResumeReachesTheSameEnd` | packages/application/src/provider-settings.ts:639-744 | Stopped after any number of durable writes and started again, the migration ends in the same target, record, secret and answer |
| `ProviderMigration.AnyNumberOfCrashes` | packages/application/src/provider-settings.ts:639-744 | The same after any number of stopped runs |
| `ProviderMigration.MigrateStep` | packages/application/src/provider-settings.ts:689-709 | A run writes the target only when there is none, only with the candidate, only at or above the high-water mark and never on a complete record |
| `ProviderMigration.FirstRunMoves` | packages/application/src/provider-settings.ts:655-744 | A first run over an empty target takes the configuration unchanged under a generation one above the highest known on either side, and the secret if it is readable, fits and keeps; it is complete when the secret went along or none was needed |
| `ProviderMigration.AnsweredWithoutWriting` | packages/application/src/provider-settings.ts:639-709 | Which states are answered as missing, corrupt, kept or complete without any write |
| `ProviderMigration.SaveDoes` | packages/application/src/provider-settings.ts:580-588 | What a save leaves, and that wherever it is stopped the target is never left above the mark |
| `ProviderMigration.DeleteDoes` | packages/application/src/provider-settings.ts:415-425 | What a deletion leaves, and that wherever it is stopped the target is never gone with its generation above the mark |
| `ProviderMigration.RunAdvances` | packages/application/src/provider-settings.ts:354-366 | Over any run of migrations, saves and deletes the high-water mark never falls and the record never goes back |
| `ProviderMigration.OverStaysOver` | packages/application/src/provider-settings.ts:690-692 | Once the record is complete or overtaken, no later migration touches the target, whatever is saved, deleted or cut short |
| `ProviderMigration.SaveOvertakesMigration` | packages/application/src/provider-settings.ts:580-586 | A saved configuration is above every earlier generation, which ends the migration's hold on the target |
| `ProviderMigration.TargetStore.Migrate` | packages/application/src/provider-settings.ts:639-744 | The code as written makes exactly the specified writes, cut at the crash, and gives the specified answer |
| `LanguageMigration.MigrateStep` | apps/desktop/src/legacy-settings.ts:171-185 | A run changes the preferences if and only if the marker is pending, they are the prior ones, and it gets past the marker; it changes only the language |
| `LanguageMigration.AnsweredExactlyWhen` | apps/desktop/src/legacy-settings.ts:124-186 | Invalid exactly for another language or an unreadable marker; migrated exactly while the marker is pending and the preferences are those before or after the change |
| `LanguageMigration.MarkerIsForWhatWasFound` | apps/desktop/src/legacy-settings.ts:148-160 | A first run's marker is for the preferences it found and for those with only the language changed |
| `LanguageMigration.UndisturbedEndsWithLegacyLanguage` | apps/desktop/src/legacy-settings.ts:124-186 | Without edits, after any crashes, a full run ends with the legacy language and a complete marker |
| `LanguageMigration.UserChangeWins` | apps/desktop/src/legacy-settings.ts:181-184 | A preference changed after the marker is left alone and the marker completed |
| `LanguageMigration.AppliedTwiceExactlyWhenRestoredBetween` | apps/desktop/src/legacy-settings.ts:124-186 | Over any run from any state the migration is applied more than once if and only if, after an application, an edit restores the prior preferences while the marker is pending and a later run gets past it again |
| `LanguageMigration.AppliedOncePerPriorState` | apps/desktop/src/legacy-settings.ts:124-186 | From any state, over any crashes, re-runs and edits, the migration is applied at most once, plus once per edit that restores exactly the prior preferences |
| `LanguageMigration.RestoredPreferencesAreMigratedAgain` | apps/desktop/src/legacy-settings.ts:176-180 | Such an edit before the marker completes is undone by the next run |
| `LanguageMigration.LegacySettingsMigration.Run` | apps/desktop/src/legacy-settings.ts:77-198 | The language part as written makes exactly the specified writes, cut at the crash |
| `KernelSession.RunKeepsSound` | packages/application/src/kernel-api.ts:67-277 | Over every interleaving: an installed kernel belongs to the current generation, every handle is installed or closed, one call at most is in flight, maintenance excludes kernels and opens |
| `KernelSession.GenerationPinsSession` | packages/application/src/kernel-api.ts:67-76 | The generation never falls, and while it stands still an open session is the same session |
| `KernelSession.DisposedForever` | packages/application/src/kernel-api.ts:67-82 | After disposing, in every later run the session is disposed, no kernel is installed, no call is begun and every handle that still arrives is closed |
| `KernelSession.HandlesCloseTwiceExactlyWhenLate` | packages/application/src/kernel-api.ts:226-251 | Over any run some handle is closed twice if and only if a handle that arrived too late throws when closed |
| `KernelSession.HandleCanCloseTwice` | packages/application/src/kernel-api.ts:226-251 | It happens: opened, closed meanwhile, and the late handle's close throws |
| `KernelSession.InstalledExactlyUntilClosed` | packages/application/src/kernel-api.ts:67-76 | A handle is installed exactly until it is closed for the first time |
| `KernelSession.OpeningSticksExactlyWhenCloseThrows` | packages/application/src/kernel-api.ts:201-215 | Over any run the opening flag is left raised for good if and only if the old handle's close throws in an admitted open or repair |
| `KernelSession.OpeningCanStick` | packages/application/src/kernel-api.ts:201-215 | It happens: from a new session on, the second open closes a handle that throws |
| `KernelSession.StuckForever` | packages/application/src/kernel-api.ts:80-82 | From then on no create, open, repair or maintenance is admitted in any run |
| `KernelSession.KernelApplicationApi.CloseSession` | packages/application/src/kernel-api.ts:67-76 | Closing forgets the kernel, advances the generation by one, disposes when asked to, leaves the other fields and reports whether the handle's close threw; as the machine does |
| `KernelSession.KernelApplicationApi.BeginOpen` | packages/application/src/kernel-api.ts:201-215 | Open is admitted exactly when valid and nothing is disposed, opening or in maintenance; every field after it is stated, as in the machine |
| `KernelSession.KernelApplicationApi.ResumeOpen` | packages/application/src/kernel-api.ts:216-254 | A handle is installed exactly when the generation it was opened for still stands and nothing was disposed; otherwise the session stays closed |
| `KernelSession.KernelApplicationApi.ResumeCreate` | packages/application/src/kernel-api.ts:80-96 | Creation goes on to open for writing in the same turn exactly when it succeeded and the session has not moved |
| `KernelSession.KernelApplicationApi.BeginMaintenance` | packages/application/src/kernel-api.ts:97-128 | Maintenance is admitted only with nothing open, opening or in maintenance |
| `TrustedCommands.SensitiveDispatchIsConfirmed` | packages/application/src/trusted-commands.ts:10-125 | In every interleaving a commit, attempt start, memory change, privacy cleanup or host bridge reaches the kernel only on a snapshot of the right parts accepted within 60 seconds, unrevoked until the answer, re-read unchanged, on the kernel and in the generation it was started with |
| `TrustedCommands.RunKeepsSound` | packages/application/src/trusted-commands.ts:87-113 | The pending flag is up exactly while one confirmation is under way, and there is never a second |
| `TrustedCommands.RevokeBeforeAnswerStops` | packages/application/src/trusted-commands.ts:54-106 | A command revoked while its snapshot is read or the user is asked never reaches the kernel, in any later run |
| `TrustedCommands.RevokedCallRunsExactlyWhenUnderWay` | packages/application/src/trusted-commands.ts:101-125 | A revoked command can still reach the kernel if and only if it was answered, what was read again agrees so far, and the session still admits it |
| `TrustedCommands.RevokeAfterAnswerIsIgnored` | packages/application/src/trusted-commands.ts:101-125 | It happens: from a new process on, a command is revoked during the second reading and handed to the kernel |
| `TrustedCommands.TrustedKernelCommands.BeginExecute` | packages/application/src/trusted-commands.ts:30-88 | Only a command that is none of the five is handed over at once; a sensitive one is taken up exactly when nothing is pending and it names the open project and generation; as the machine does |
| `TrustedCommands.TrustedKernelCommands.ResumeReply` | packages/application/src/trusted-commands.ts:100-109 | The answer counts exactly when accepted within 60 seconds, nothing was revoked and the session reads as it did; otherwise the lock is released |
| `TrustedCommands.TrustedKernelCommands.ResumeReread` | packages/application/src/trusted-commands.ts:107-124 | The command is handed over exactly when both readings agree and the session still admits it |
| `UpdatePolicy.AcceptedExactlyWhen` | apps/desktop/src/update-policy.ts:101-206 | An offer is accepted exactly when it is trusted, well formed, for this target, later in sequence, another commit, and not a lower version (stable: a higher one) in dictionary order |
| `UpdatePolicy.ChainAdvances` | apps/desktop/src/update-policy.ts:165-193 | Along any chain of accepted offers the sequence strictly rises and the version never falls; on the stable channel it strictly rises |
| `UpdatePolicy.NoReplay` | apps/desktop/src/update-policy.ts:189-193 | No offer is accepted a second time, however many were installed since |
| `Updater.RestartIsSettled` | apps/desktop/src/updater.ts:126-221 | After any crash no stage is left that is under way, available or verified; installed is reported exactly when it was saved so, whatever is running, or the install under way offers what is running |
| `Updater.RestartReports` | apps/desktop/src/updater.ts:126-221 | What a restart reports for every saved record, what it saves, and that a save that fails is a failure |
| `Updater.StoppedJobEndsAs` | apps/desktop/src/updater.ts:272-298 | A job that is stopped ends as interrupted, else as cancelled, else as failed, and changes nothing else |
| `Updater.CheckStopsExactlyWhen` | apps/desktop/src/updater.ts:302-344 | When a check is stopped, and what it comes to otherwise |
| `Updater.DownloadStopsExactlyWhen` | apps/desktop/src/updater.ts:379-431 | When a download is stopped, and what it comes to otherwise |
| `Updater.InstallStopsExactlyWhen` | apps/desktop/src/updater.ts:448-466 | When an install is stopped, and what it comes to otherwise |
| `Updater.RecoveringAndEndingExactly` | apps/desktop/src/updater.ts:467-472 | Recovery ends well exactly when there is a rollback name and its launcher ran; an ending job saves its stage where it can and is over |
| `Updater.EventsOutsideJobs` | apps/desktop/src/updater.ts:432-446 | A job starts exactly when none runs, a cancellation reaches only a check or a download under way, an interruption aborts whatever job runs |
| `Updater.FileVerifiesExactlyWhen` | apps/desktop/src/updater.ts:352-378 | A file verifies exactly when the saved envelope is still accepted and the offer's own file is there with the offer's digest |
| `Updater.InstalledIsNotCheckedAgain` | apps/desktop/src/updater.ts:172-212 | A record saved as installed is reported although another program than the offered one is running |
| `Updater.InstallerRunsOnlyWhenVerified` | apps/desktop/src/updater.ts:448-466 | In any run the installer is called only for the very offer this process verified and the saved envelope proves, with the rollback id saved; that offer's file matches then if and only if nothing else was put there after its last reading |
| `Updater.ChangeBeforeLaunchGoesUnnoticed` | apps/desktop/src/updater.ts:462-464 | A file changed between the last reading and the launch is launched as it then is |
| `Updater.LaunchedOfferAdvances` | apps/desktop/src/updater.ts:352-378 | Whatever the installer is called for is a later sequence of the same target and no lower version |
| `Updater.DesktopUpdater.Initialize` | apps/desktop/src/updater.ts:126-221 | Restart reconciliation as written, its failed saves included, computes the specified record |
| `Updater.DesktopUpdater.ContinueCheck` | apps/desktop/src/updater.ts:302-344 | A check keeps the invariant, launches nothing and changes no file; a new offer forgets the verified one; available is reached only with a saved envelope that proves the offer |
| `Updater.DesktopUpdater.ContinueDownload` | apps/desktop/src/updater.ts:379-431 | A download keeps the invariant, launches nothing, keeps the offer and every file already there; it counts as verified only what it just read as the offer's own content, and reaches verified only for that offer |
| `Updater.DesktopUpdater.ContinueInstall` | apps/desktop/src/updater.ts:448-466 | An install keeps the invariant and changes no file; it calls the installer exactly when it waits to launch, once, for the verified offer, and reaches installing only with the way back saved |
| `Evaluation.IndexPredictions` | researchbench/tools/run-evaluation.ts:491-505 | Predictions are taken exactly when there is one per case count, no id twice, and a fitting one for every case |
| `Evaluation.AnswersExactlyWhen` | researchbench/tools/run-evaluation.ts:491-505 | A prediction fits a case when it has its id and reports on a correction exactly when the case simulates one |
| `Evaluation.AcceptedIsBijection` | researchbench/tools/run-evaluation.ts:491-505 | Taken predictions are in bijection with cases of unique ids |
| `Evaluation.StrayGetsThroughExactlyWhenRepeated` | researchbench/tools/run-evaluation.ts:491-505 | A prediction that answers no case gets through if and only if some case id comes twice and the cases can be answered at all |
| `Evaluation.BetterMetricsNeverWorsenDecision` | researchbench/tools/run-evaluation.ts:580-591 | Measurements no worse anywhere never worsen the decision |
| `EvaluationMetrics.MetricsFor` | researchbench/tools/run-evaluation.ts:486-551 | Predictions are measured exactly when they answer the cases and every category, a normal control and a simulated correction occur; counts, rates, means and the 95th percentile are then the specified ones |
| `EvaluationMetrics.CategoryCounts` | researchbench/tools/run-evaluation.ts:508-531 | Precision is the share of right interventions among a category's interventions, recall among those wanted, and the counts are numbers of cases |
| `EvaluationMetrics.ControlsCount` | researchbench/tools/run-evaluation.ts:530-535 | The intervention rate counts normal controls |
| `EvaluationMetrics.RecoveriesCount` | researchbench/tools/run-evaluation.ts:531-538 | The recovery rate counts simulated corrections |
| `EvaluationMetrics.FailuresAndPercentileCount` | researchbench/tools/run-evaluation.ts:539-551 | Failures are counted among the predictions; at least 95 of 100 predictions take at most the reported latency, and fewer than that take less |
| `EvaluationMetrics.AlignedReorders` | researchbench/tools/run-evaluation.ts:491-505 | For cases of unique ids, looking the predictions up case by case only reorders them, so totals over either list agree |
| `EvaluationMetrics.BetterPredictionsNeverWorsenDecision` | researchbench/tools/run-evaluation.ts:486-591 | Predictions that intervene and recover no worse case by case, fail less and cost and take no more are measured no worse, precision, recall and percentile included, and decided no worse |
| `Evaluation.GoMeansConditional` | researchbench/tools/run-evaluation.ts:580-591 | With the nesting the thresholds must have, a go passes the conditional gates too |
| `Evaluation.DecidedExactlyWhen` | researchbench/tools/run-evaluation.ts:552-591 | Which thresholds each decision takes, semantic and product, and which it misses |

## Left out

- Proposals of one merge that share an id: order independence and the full specification are stated for distinct ids, as every producer of proposals makes them.
- Strings compare by character; `localeCompare` and UTF-16 unit order are modelled as that order, and distinct paths are taken never to compare equal.
- Keys named like members of `Object.prototype`, and the reordering of integer-like keys by JavaScript objects.
- ConfigReplay.ReplayRestoresProposal: for sets of keys whose paths are unambiguous; `ConfigKeys.SafeExactlyWhenUnambiguous` proves that it fails for all others.
- ConfigDiff.DiffsAgreeExactlyWhenAlike: for diffs that list each path once; `ConfigKeys.ConfirmableExactlyWhenUnambiguous` proves that exactly the unambiguous sets of keys guarantee it.
- ConfigMerge.CompatibleLayersKeepProvenance: for sets of keys whose paths are unambiguous; `ConfigSources.MapIsTrueExactlyWhenUnambiguous` proves that it fails for all others. The defaults and their source map are parameters.
- ConfigLayers.LoadEffectiveConfig: the final schema check is a function parameter, and the list of missing fields is kept only for the collaboration settings.
- ConfigWrite.ConfigFile.ApplyConfirmedConfigChange: the backup copy, the temporary file and symbolic-link resolution are reduced to where the target really is and whether the write goes through; file contents are JSON objects.
- ConfigLayers.FilteredIsClean: the forbidden-key expression is a predicate parameter.
- Directives.ParseDirectives: the directive expressions themselves, the text of ambiguity reports and the bare-budget ambiguity.
- Directives.ResolveDuplicateDirectives: reports are modelled by the key they are about, not by excerpt and spans.
- Schema validation beyond the fields the operations touch; the duplicate-key and size checks of stored records.
- ProviderMigration.MigrateStep: one migration, save or delete at a time; a source that changes after the record exists; secret storage whose answers change between runs.
- ProviderMigration.RunAdvances: that generations are never used twice is not claimed; a save and a delete before the target is written can reuse one.
- Generations, sequence numbers and lengths are unbounded integers; contract versions, call budgets and update versions have the safe-integer bounds the source gives them.
- LanguageMigration.AppliedOncePerPriorState: edits fall between runs; a language change between the hash check and the update of one run is not modelled.
- BriefPublisher.RunKeepsSound: the document is a function of the revision; the size limit, links and directories are one unusable kind of file.
- KernelSession.RunKeepsSound: the host draft bridge, argument parsing and what maintenance does; only which calls are admitted and which handles are open.
- TrustedCommands.SensitiveDispatchIsConfirmed: the command table behind `execute`; a read returns any value, if the session admitted it when it started.
- Updater.InstallerRunsOnlyWhenVerified: partial files, disk space, request limits, path checks and the `code` and `projectPath` fields of the record; a changed file after its last reading is possible and marked.
- UpdatePolicy.AcceptedExactlyWhen: the error codes of offers whose numbers exceed the safe range; such offers are refused either way.
- Authority.ResolveCollaborationAuthority: reasons are data, not capped text.
- EvaluationMetrics.MetricsFor: arithmetic is over the reals, and rounding to six places is any rounding that keeps order and leaves one alone.
- PromptSpans.ParsePrompt: the regular expressions are given functions that find pieces of a text; the budget numbers and the deadline's instant are not computed.
- The command-line and server applications, provider transport, MCP runtime, process spawning, secret storage and user interface: routing and foreign calls.
- The correction appeal and the closed external pilot: their legal transitions live in a package that is not part of this model.
