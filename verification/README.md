# Verification of the Docker manager's hard core

This project models eight parts of the Docker manager in Dafny and proves what they promise, over all inputs and all
runs. `dafny verify dfyconfig.toml` checks everything.

- **Build-context export** (`Paths`, `Glob`, `Anchors`, `DockerIgnore`, `ContextExport`, `ComposeRewrite`). Ignore patterns
  are translated to expressions, verdicts are carried from directory to child with evaluations skipped, and whole directories
  are left unopened. The walk is proved to copy exactly what asking a plain filter about every single path would copy, under
  an exact condition on the exceptions. The Compose rewrite on top of it gives builds shared, numbered copies.
- **M05 one-shot driver** (`ExecutionRegistry`, `M05Driver`, `TerminalGraph`, `StreamCapture`). Claim, body, cleanup and
  terminal record under arbitrary faults; if the registry can be written, the acceptance body runs at most once per
  execution identity. Two checks for a graph's single end, and the bounded capture of a child's output.
- **Image retention** (`ImageRetention`). Tags on a store where removing the last tag deletes the image; every command may
  fail with or without effect, and every state it leaves behind is compared with the first one.
- **Deploy status** (`DeployStatus`, `DeployRuns`). The record's invariants and strict codec, and every history of deploys
  over one file.
- **Compose reference gate** (`VariableNames`, `Yaml`, `ComposeReferences`, `ReferenceGate`). The scanner, the walk that
  collects references by site, and why the verdict depends neither on order nor on deletions.
- **Login limiter and session cookie** (`LoginLimiter`, `Base64Url`, `SessionCookie`).
- **Concierge projection** (`ConciergeProjection`). A worklist that finds a least closed set.
- **WebSocket admission and re-authorisation** (`WebSocketAdmission`, `WebSocketReauth`).

What the code reads from outside is a parameter: faults, clocks, random numbers and command outcomes are arbitrary inputs;
hashing, signing, JSON, `repr`, percent-decoding and the remainder of an expression after a bracket or an escaped letter are
functions the results hold for whatever they are. `None` or a `Refusal` stands for the exception the code raises.

Four promises hold only under a condition, which the lemmas name and show to be needed:

- The pruned walk is the plain filter if the exceptions are safe: whatever path one matches below a directory, it matches
  the directory as well, or passes the test for reaching below it. This is exact for every single exception text
  (`PruningSafeExactly`). The translation leaves `^` unescaped while the test takes it as text, so anchored exceptions can
  fail it: `!^README.md` and `!^**` are safe, `!^docs/x` loses a file below an excluded `docs`. Whether the test can miss a
  match at all, safe or not, can be read off the text (`IsReliable`), exactly so (`ReliableWhateverTheEngine`). What is in
  `keep` is never lost.
- The body runs at most once per identity if the registry write of every run succeeds and the registry has room
  (`Replay`). A passing run is deliberately not failed by a record that could not be written, and runs that cannot write
  repeat the body until the ledger refuses the claim, 32 times at most (`RepeatUnwritten`). Failures between claim and body
  leave an identity runnable just as long (`RepeatSetupFailure`).
- The references of a document ignore edits that do not make the text of an `environment` entry name more, which no edit
  does where entries are scalars; a container there is read by its text, order included (`EntriesAgreeExactly`,
  `ValuesAgreeExactly`).
- A client is let in one second after the reported wait; at the reported wait itself exactly if the remaining time was whole
  seconds, or less than one (`LetInAtTheWait`).

## Model

| member | source | states |
|---|---|---|
| `Glob.PatternRegex` | backend/src/kor_travel_docker_manager/services/build_context_export.py:187-214 | the index loop yields the translation that the acceptance relation is defined on, token by token |
| `Glob.LiteralPrefix` | backend/src/kor_travel_docker_manager/services/build_context_export.py:174-184 | whatever a translated pattern accepts starts with the pattern text up to its first wildcard |
| `Anchors.ReliableIsNeverMissed` | backend/src/kor_travel_docker_manager/services/build_context_export.py:167-184 | a reliable pattern that matches some path below a directory passes the test for reaching below it: a false test means no match below. Every text that does not start with the unescaped `^` is reliable; one that does is if its expression accepts no path of names with a separator, or if all such paths start with the carets the test looks for |
| `Anchors.ReliableExactly` | backend/src/kor_travel_docker_manager/services/build_context_export.py:46-46 | reliability is exact for texts without brackets and escaped letters or digits: over all paths a tree can have, the test misses no match of the text iff the text is reliable |
| `Anchors.ReliableWhateverTheEngine` | backend/src/kor_travel_docker_manager/services/build_context_export.py:187-214 | and for every text, over all that brackets and escapes may stand for |
| `Anchors.SafeButNotReliable` | backend/src/kor_travel_docker_manager/services/build_context_export.py:46-46 | `^**` can be missed by the test and is safe for the walk all the same: it matches every directory above what it matches |
| `Glob.SuffixComparisonIsTheExpression` | backend/src/kor_travel_docker_manager/services/build_context_export.py:81-89 | for `**/literal` without `^` the suffix comparison accepts exactly what the translated expression accepts, on paths whose skipped part has no line feed |
| `Glob.SuffixComparisonExactly` | backend/src/kor_travel_docker_manager/services/build_context_export.py:81-89 | for a literal without line feeds, comparison and expression agree on all paths without line feeds iff the literal has no `^` |
| `Glob.SuffixComparisonIsWider` | backend/src/kor_travel_docker_manager/services/build_context_export.py:84-89 | without the separator the comparison accepts a path the expression refuses |
| `DockerIgnore.Rules.Match` | backend/src/kor_travel_docker_manager/services/build_context_export.py:140-155 | the skipping loop computes the verdict and the flags of the reference recursion, for any inherited flags |
| `DockerIgnore.Rules.SkippingKeepsTheVerdict` | backend/src/kor_travel_docker_manager/services/build_context_export.py:145-155 | skipping evaluations never changes the verdict: it is that of evaluating every pattern and letting the last hit decide |
| `DockerIgnore.Rules.Excludes` | backend/src/kor_travel_docker_manager/services/build_context_export.py:157-165 | replaying the ancestors of one path gives the verdict carried down the tree |
| `DockerIgnore.Rules.MayReincludeBelow` | backend/src/kor_travel_docker_manager/services/build_context_export.py:167-184 | the loop over exceptions decides whether some exception may reach below the directory |
| `DockerIgnore.Rules.ChildStaysExcluded` | backend/src/kor_travel_docker_manager/services/build_context_export.py:145-155 | an exclusion is inherited by a child unless an exception matches the child and not its parent |
| `DockerIgnore.Rules.PrunedSubtreeIsExcluded` | backend/src/kor_travel_docker_manager/services/build_context_export.py:289-293 | with pruning-safe exceptions, below an excluded directory that no exception may reach everything is excluded, at any depth |
| `DockerIgnore.Rules.WithoutExceptions` | backend/src/kor_travel_docker_manager/services/build_context_export.py:140-165 | without exceptions the carried verdict is: some pattern matches the path or an ancestor |
| `DockerIgnore.SkippedExceptionIsForgotten` | backend/src/kor_travel_docker_manager/services/build_context_export.py:148-150 | a skipped exception is recorded as no match, so it does not rescue a child it does not match itself |
| `DockerIgnore.NotLastMatchOnAnyAncestor` | backend/src/kor_travel_docker_manager/services/build_context_export.py:145-155 | for the patterns `a/c` and `!a` the verdict is not that of the last pattern matching the path or an ancestor |
| `ContextExport.Filter.ExportDirectory` | backend/src/kor_travel_docker_manager/services/build_context_export.py:270-317 | the recursive walk adds exactly the pruned listing to the destination |
| `ContextExport.Filter.ExportEntry` | backend/src/kor_travel_docker_manager/services/build_context_export.py:282-317 | one turn of that walk: verdict, keep set, pruning, descent, copy |
| `ContextExport.Filter.NothingKeptBelow` | backend/src/kor_travel_docker_manager/services/build_context_export.py:288-293 | with pruning-safe exceptions, nothing below a directory left unopened is kept, by keep set or by rules |
| `ContextExport.Filter.WalkIsFilter` | backend/src/kor_travel_docker_manager/services/build_context_export.py:280-317 | the walk that prunes copies and creates exactly what the walk that opens everything does, for every tree, keep set and pattern list with pruning-safe exceptions |
| `ContextExport.Filter.WalkIsWalked` | backend/src/kor_travel_docker_manager/services/build_context_export.py:280-317 | for every pattern list: the walk copies a path iff the filter selects it and no directory above it was left unopened |
| `ContextExport.Filter.KeptIsWalked` | backend/src/kor_travel_docker_manager/services/build_context_export.py:280-293 | the walk gets to every file or link in `keep`, whatever the rules |
| `ContextExport.Filter.WalkWithinFilter` | backend/src/kor_travel_docker_manager/services/build_context_export.py:280-317 | safe or not, the pruned walk never copies more than the plain filter |
| `ContextExport.Filter.FilterIsSelected` | backend/src/kor_travel_docker_manager/services/build_context_export.py:157-165 | listing the whole tree agrees with asking the per-path filter about each single path text |
| `ContextExport.Filter.ExportBuildContext` | backend/src/kor_travel_docker_manager/services/build_context_export.py:217-254 | for every path text the copy holds the file or link, with its normalised mode, iff it is in `keep` or not excluded and the walk gets there; with pruning-safe or reliable exceptions it always does, and to paths in `keep` in any case |
| `ContextExport.Filter.ExportIsStable` | backend/src/kor_travel_docker_manager/services/build_context_export.py:19-22 | applying the same rules to the copy again, with or without pruning, selects exactly the copy |
| `ContextExport.PruningSafeExactly` | backend/src/kor_travel_docker_manager/services/build_context_export.py:280-317 | what makes an exception safe is exact: over all rules with no other exception, all keep sets and all trees, pruning never makes a difference iff whatever path the text matches below a directory, it matches the directory as well or passes the test for it |
| `ContextExport.MissedExceptionIsLost` | backend/src/kor_travel_docker_manager/services/build_context_export.py:288-293 | where that fails the walk loses a file: after the exclusion of a directory, a path below it that the exception re-includes is selected by the filter, and no walk over a tree that holds it copies it |
| `ContextExport.AnchoredPlainExactly` | backend/src/kor_travel_docker_manager/services/build_context_export.py:46-46 | for `^name` without wildcards: some tree loses a file iff the name has a separator and its parts are names; `!^README.md` is harmless, `!^docs/x` is not |
| `ComposeRewrite.Job.Prepare` | backend/src/kor_travel_docker_manager/services/build_context_export.py:375-424 | the first pass refuses exactly the builds it cannot handle, labels or drops each build, and collects the local ones with their keep sets |
| `ComposeRewrite.Job.Stage` | backend/src/kor_travel_docker_manager/services/build_context_export.py:429-447 | the second pass makes one copy per key, numbered in the order of first use, and points every user at it |
| `ComposeRewrite.Job.Rewrite` | backend/src/kor_travel_docker_manager/services/build_context_export.py:355-448 | the rewrite succeeds exactly on acceptable documents and is then correct service by service; a document without services stays as it is |
| `ComposeRewrite.Job.OthersLoseTheirBuild` | backend/src/kor_travel_docker_manager/services/build_context_export.py:378-380 | services not built by the command have no build section afterwards and are otherwise unchanged |
| `ComposeRewrite.LocalBuildReadsACopy` | backend/src/kor_travel_docker_manager/services/build_context_export.py:430-447 | a local build reads the copy made for its own key, with its Dockerfile repointed |
| `ComposeRewrite.CopiesAreSharedByKey` | backend/src/kor_travel_docker_manager/services/build_context_export.py:429-441 | two local builds share a copy iff they share context and ignore file; each label is the digest of the section before rewriting |
| `ComposeRewrite.CopyPathInjective` | backend/src/kor_travel_docker_manager/services/build_context_export.py:433-433 | distinct copy numbers give distinct copy names |
| `ComposeRewrite.DockerfileIsInTheCopy` | backend/src/kor_travel_docker_manager/services/build_context_export.py:419-423 | whatever the ignore rules say, what the pruned walk puts into the copy a build reads holds its in-context Dockerfile, if that is a file or link there |
| `ComposeRewrite.Job.KeepsAreForUsers` | backend/src/kor_travel_docker_manager/services/build_context_export.py:418-423 | the keep set of a copy is exactly what the builds using it ask for |
| `ExecutionRegistry.Registry.BlockCurrentAddsOneRecord` | backend/src/kor_travel_docker_manager/services/runtime_execution_registry.py:577-607 | recording changes one identity and one phase and keeps every earlier record |
| `M05Driver.Host.RecordTerminal` | scripts/m05_isolated_e2e.py:526-558 | true exactly if pins and registry can be read and match, there is room, and the record was written; the new registry is the old one with that record, if the write took effect at all |
| `M05Driver.Host.Attempt` | scripts/m05_isolated_e2e.py:3272-4144 | the protected part claims iff admission and setup go through, and then only an open identity of the pinned release; it enters the body iff the claim is taken and the runtime comes up, and stops in the phase of its first fault |
| `M05Driver.Host.Claim` | backend/src/kor_travel_docker_manager/services/m05_isolated_harness.py:237-283 | the claim adds one file for the current identity; the 33rd of an identity is refused |
| `M05Driver.Host.RunOnce` | scripts/m05_isolated_e2e.py:3272-4273 | a run is determined by its faults: claim, entry, end, interruption and rehearsal, and the driver phase of the receipt is the phase its first fault is caught in; the record is confirmed exactly when its write succeeds and there is room; body entries stay covered by a record that closes the identity or by an entry whose record was not confirmed; a failure between claim and body leaves every identity as runnable as it was |
| `M05Driver.Host.Replay` | scripts/m05_isolated_e2e.py:314-352 | over any runs and rotations no identity enters the body more than 32 times; if the registry write of every run succeeds and the registry has room, none does twice; otherwise the excess is bounded by the entries not recorded; passed leaves stay passed; runs that all fail between claim and body leave every identity as runnable as it was, as long as the ledger takes their claims |
| `M05Driver.Host.RepeatUnwritten` | scripts/m05_isolated_e2e.py:526-558 | the writes are needed: good runs that cannot write enter the body of one identity once each, until its 32 claims are used up |
| `M05Driver.Host.RepeatSetupFailure` | backend/src/kor_travel_docker_manager/services/m05_isolated_harness.py:237-283 | so are the claims: after n runs that fail between claim and body the identity is closed iff n exceeds the claims it had left |
| `M05Driver.Host.Conclude` | scripts/m05_isolated_e2e.py:4139-4273 | the reassigned phase and verdict end in a consistent receipt: passed iff body and cleanup finished, hashes iff passed, preflight_rejected iff nothing was claimed and then phase equals driver_phase, block failure reported, exit code 0 iff passed and the receipt was written. The record is the one its receipt tells (consumption if passed, unconditional once the body was entered, scoped otherwise), and confirmed iff its write succeeded and there was room |
| `M05Driver.FailedBodyIsBurnt` | scripts/m05_isolated_e2e.py:514-558 | a failed run that entered the body and could record it has burnt the identity |
| `M05Driver.PassingRunIsAPassedLeaf` | scripts/m05_isolated_e2e.py:374-386 | the consumption record of a passing run is never the unconditional block the leaf check looks for |
| `M05Driver.PassedLeavesStayPassed` | scripts/m05_isolated_e2e.py:2568-2571 | no later run burns an identity whose body was completed |
| `M05Driver.InfrastructureFailureLeavesRunnable` | scripts/m05_isolated_e2e.py:363-372 | a run that claimed and never entered the body stopped at the claim or in the runtime setup, and closes the claimed identity iff its record is written and the phase its fault is caught in is the claim, one of the body's, or the consumption phase without a cleanup problem; no other identity is affected |
| `M05Driver.SetupFailureLeavesRunnable` | scripts/m05_isolated_e2e.py:363-372 | so failing between claim and body, by an exception, an interrupt or a named failure that is none of those, leaves every identity as it was |
| `M05Driver.SetupDoesNotBurn` | scripts/m05_isolated_e2e.py:363-372 | no phase of the runtime setup is one of those |
| `TerminalGraph.Graph.EverythingIsBelowTheTerminal` | scripts/m05_isolated_e2e.py:3086-3100 | in a finite acyclic graph with one terminal every node is a transitive dependency of it |
| `TerminalGraph.Graph.WhatEverythingIsBelowIsTheTerminal` | scripts/m05_isolated_e2e.py:3091-3092 | conversely a node that rests on all others is the one terminal |
| `TerminalGraph.ProfileTerminalRestsOnEveryMember` | scripts/m05_isolated_e2e.py:3065-3100 | on acyclic profiles the check returns a service iff it is well named and every member is a transitive dependency of it |
| `TerminalGraph.EveryRevisionIsAnAncestorOfTheHead` | scripts/m05_isolated_e2e.py:2799-2828 | on acyclic graphs the check returns a head iff all parents are declared and every declared revision is an ancestor of it |
| `TerminalGraph.ACycleBesideTheTerminal` | scripts/m05_isolated_e2e.py:3091-3092 | with a cycle beside it the single terminal does not rest on everything |
| `StreamCapture.Buffer.TailRing` | scripts/m05_isolated_e2e.py:757-765 | the buffer becomes the last `limit` bytes of what it held and the chunk; true iff bytes were dropped |
| `StreamCapture.DrainTail` | scripts/m05_isolated_e2e.py:802-817 | for every chunking the ring holds the last min(n, limit) bytes, and dropped iff n > limit |
| `StreamCapture.DrainHead` | scripts/m05_isolated_e2e.py:814-825 | for every chunking the head is the first min(n, limit) bytes, and truncated iff n > limit |
| `StreamCapture.ClippedTailIsReadable` | scripts/m05_isolated_e2e.py:768-773 | the clipped text is the whole stream, or what follows the first newline of its last bytes, or the notice if nothing does |
| `StreamCapture.RunWithBoundedOutput` | scripts/m05_isolated_e2e.py:776-838 | the same for both streams of a process, in every mode |
| `ImageRetention.ContentReferenceDeterminesImage` | backend/src/kor_travel_docker_manager/services/c6c_image_retention.py:85-89 | a content reference names its image, so two images never collide on one |
| `ImageRetention.DesiredReferences` | backend/src/kor_travel_docker_manager/services/c6c_image_retention.py:92-105 | refused iff some image cannot be carried; otherwise the wanted tags of all generations; the collision refusal is never taken |
| `ImageRetention.DesiredIsDetermined` | backend/src/kor_travel_docker_manager/services/c6c_image_retention.py:92-105 | the generations alone determine the wanted tags |
| `ImageRetention.EnsureReferences` | backend/src/kor_travel_docker_manager/services/c6c_image_retention.py:146-181 | creates what is missing and touches nothing else, in every intermediate state; counts what was missing; if commands are reliable it succeeds iff every wanted tag can be secured |
| `ImageRetention.SecuringIsSafe` | backend/src/kor_travel_docker_manager/services/c6c_image_retention.py:158-181 | every state of the additive step is safe |
| `ImageRetention.StaleIsSafeToRemove` | backend/src/kor_travel_docker_manager/services/c6c_image_retention.py:388-393 | whichever stale tags are gone, no wanted tag, no tag of another namespace and no active image is lost |
| `ImageRetention.WithoutOneMore` | backend/src/kor_travel_docker_manager/services/c6c_image_retention.py:295-306 | removing tags one by one, each deleting its image if it was the last tag, amounts to removing them together |
| `ImageRetention.RemoveAll` | backend/src/kor_travel_docker_manager/services/c6c_image_retention.py:356-362 | the removing loop keeps every intermediate state safe, given up at any command |
| `ImageRetention.ReconcileGeneration` | backend/src/kor_travel_docker_manager/services/c6c_image_retention.py:376-403 | a refused request runs no command; otherwise safe in every intermediate state and on every exit; on success the namespace holds exactly the wanted tags, all others are as before, an image is gone iff its last tag went, and the report counts both kinds of change; reliable commands succeed iff it can |
| `ImageRetention.NothingLeftToDo` | backend/src/kor_travel_docker_manager/services/c6c_image_retention.py:384-403 | in a reconciled store there is nothing to secure and nothing to remove |
| `ImageRetention.ReconcilingTwiceIsOnce` | backend/src/kor_travel_docker_manager/services/c6c_image_retention.py:376-403 | reconciling a reconciled store gives the same store |
| `ImageRetention.ReconcileAgain` | backend/src/kor_travel_docker_manager/services/c6c_image_retention.py:376-403 | an immediate second run reports zero changes and changes nothing |
| `ImageRetention.DesiredCandidates` | backend/src/kor_travel_docker_manager/services/c6c_image_retention.py:254-292 | succeeds iff the six candidate tags are exactly those of the generation, distinct and recognised; gives each its image |
| `ImageRetention.CandidatesKeepATag` | backend/src/kor_travel_docker_manager/services/c6c_image_retention.py:337-343 | an image retained under its content reference outlives the removal of candidate tags |
| `ImageRetention.ReconcileCandidates` | backend/src/kor_travel_docker_manager/services/c6c_image_retention.py:321-373 | a refused request runs no command; otherwise safe in every intermediate state and on every exit; on success the candidate namespace holds exactly the active pinset; reliable commands succeed iff content references and active tags hold |
| `ImageRetention.ReconcileCandidatesAgain` | backend/src/kor_travel_docker_manager/services/c6c_image_retention.py:321-373 | an immediate second run for the same candidates reports zero changes and changes nothing; with reliable commands it succeeds |
| `ImageRetention.CandidatesAreDetermined` | backend/src/kor_travel_docker_manager/services/c6c_image_retention.py:254-292 | the request alone determines the wanted candidate tags |
| `DeployStatus.PlainBeginIsNeverRefused` | backend/src/kor_travel_docker_manager/services/deploy_status.py:250-303 | whatever state the last run left, a plain begin is accepted |
| `DeployStatus.RoundTrip` | backend/src/kor_travel_docker_manager/services/deploy_status.py:213-235 | decoding an encoded status gives back the same status, for every valid status |
| `DeployStatus.OnlyTheRetiredRoleIsLost` | backend/src/kor_travel_docker_manager/services/deploy_status.py:392-459 | an accepted payload is what its status encodes to, but for the retired role |
| `DeployStatus.ReencodingIsAFixedPoint` | backend/src/kor_travel_docker_manager/services/deploy_status.py:421-459 | re-encoding an accepted payload is a fixed point of decoding |
| `DeployStatus.DecodingIsInjective` | backend/src/kor_travel_docker_manager/services/deploy_status.py:421-459 | two payloads accepted as one status differ at most in the retired role |
| `DeployStatus.RetiredRoleIsIgnored` | backend/src/kor_travel_docker_manager/services/deploy_status.py:398-410 | a payload with the retired role is accepted iff the one without it is and a retired schema head is a string; then both decode alike |
| `DeployStatus.OtherKeySetsAreRefused` | backend/src/kor_travel_docker_manager/services/deploy_status.py:392-410 | any other set of keys is refused |
| `DeployRuns.FileTellsItsHistory` | backend/src/kor_travel_docker_manager/services/deploy_status.py:195-211 | over every run of begins, resets, adoptions, commits, failed writes and crashes the stored baseline is the one set by the latest commit, adoption or completed reset, the identity is that of the latest run, and the decisions are those that run was given or took over |
| `DeployRuns.PlainContinuation` | backend/src/kor_travel_docker_manager/services/deploy_status.py:276-303 | a plain run keeps the baseline, takes over a restart record iff a completed reset left it, and an adoption record iff an unfinished adoption did |
| `DeployRuns.RestartKeepsTheBaseline` | backend/src/kor_travel_docker_manager/services/deploy_status.py:263-267 | beginning with a restart keeps the baseline; only the reset clears it |
| `DeployRuns.ResetIsNeverRefused` | backend/src/kor_travel_docker_manager/services/compose_service.py:6453-6459 | a completed reset can always be recorded: baseline cleared, step set, decision kept |
| `DeployRuns.StrictHistory` | backend/src/kor_travel_docker_manager/services/deploy_status.py:413-459 | all of this for the strict codec itself, from any accepted file or none |
| `DeployRuns.StrictContinuation` | backend/src/kor_travel_docker_manager/services/deploy_status.py:276-303 | and so for what a plain run takes over |
| `VariableNames.VariableNames` | backend/src/kor_travel_docker_manager/services/compose_references.py:57-78 | the scanner returns the names after exactly those dollars that are no half of an escape, also inside defaults, digit-led names dropped |
| `VariableNames.DoubledTextHasNoNames` | backend/src/kor_travel_docker_manager/services/compose_references.py:67-69 | a text whose dollars were doubled refers to nothing |
| `VariableNames.UndoublingUndoesDoubling` | scripts/m05_isolated_e2e.py:3449-3449 | un-doubling a doubled text returns the original |
| `ComposeReferences.PartitionSplits` | backend/src/kor_travel_docker_manager/services/compose_references.py:112-114 | an `environment` list entry is split at its first `=` |
| `ComposeReferences.Collect` | backend/src/kor_travel_docker_manager/services/compose_references.py:137-182 | the walk over the document collects, at every site, exactly the names the declarative reading gives, and no empty site |
| `ReferenceGate.EnvFilesAreProtected` | backend/src/kor_travel_docker_manager/services/compose_references.py:167-169 | every `env_file` entry is a reference, and always a protected one |
| `ReferenceGate.KeysWithoutValueAreReferences` | backend/src/kor_travel_docker_manager/services/compose_references.py:105-118 | an `environment` key without a value refers to the variable of that name |
| `ReferenceGate.MountsReferToTheirDeclaration` | backend/src/kor_travel_docker_manager/services/compose_references.py:162-166 | a mounted secret or config refers to the variable its top-level declaration is read from |
| `Yaml.ScalarsShrink` | backend/src/kor_travel_docker_manager/services/compose_references.py:81-91 | deleting entries and reordering lists adds no scalar |
| `Yaml.ReorderedAnywhere` | backend/src/kor_travel_docker_manager/services/compose_references.py:39-41 | replacing a list anywhere inside a document by a permutation of it gives the same document up to order |
| `Yaml.DeletedAnywhere` | backend/src/kor_travel_docker_manager/services/compose_references.py:39-41 | deleting an entry anywhere inside gives a document within the first |
| `Yaml.WithinIsTransitive` | backend/src/kor_travel_docker_manager/services/compose_references.py:39-41 | so does any series of such edits |
| `ReferenceGate.ReferencesShrink` | backend/src/kor_travel_docker_manager/services/compose_references.py:137-182 | deleting entries and reordering lists, anywhere in the document, adds no reference at any site, as long as no `environment` entry comes to refer to more |
| `ReferenceGate.FlatEnvironmentsAddNoNames` | backend/src/kor_travel_docker_manager/services/compose_references.py:105-118 | which no such edit brings about where `environment` entries are scalars |
| `ReferenceGate.ReferencesIgnoreOrder` | backend/src/kor_travel_docker_manager/services/compose_references.py:39-41 | the references at every site do not depend on the order of any list, as long as no `environment` entry refers to something else for it |
| `ReferenceGate.EntriesAgreeExactly` | backend/src/kor_travel_docker_manager/services/compose_references.py:112-114 | and which is needed: as `environment` list entries any two values refer to the same variables iff their texts give the same names, under the same key if there are any |
| `ReferenceGate.ContainersAgreeExactly` | backend/src/kor_travel_docker_manager/services/compose_references.py:112-114 | so two containers without `=` do iff their texts are the same, whatever else relates them |
| `ReferenceGate.ValuesAgreeExactly` | backend/src/kor_travel_docker_manager/services/compose_references.py:105-111 | and as the values of one key iff their texts name the same variables, the key's own aside |
| `ReferenceGate.AssertDerived` | backend/src/kor_travel_docker_manager/services/compose_references.py:423-449 | accepted iff no site gains a protected reference and no scalar carries a secret |
| `ReferenceGate.AcceptanceSurvivesDeletion` | backend/src/kor_travel_docker_manager/services/compose_references.py:423-449 | acceptance survives deletion and reordering in the candidate, under the same condition |
| `ReferenceGate.VerdictIgnoresOrder` | backend/src/kor_travel_docker_manager/services/compose_references.py:423-449 | the verdict does not depend on the order of any list in either document, under the same condition |
| `ReferenceGate.ReferenceAgainstItself` | backend/src/kor_travel_docker_manager/services/compose_references.py:423-449 | the reference document is accepted against itself iff no scalar of it carries a secret |
| `ReferenceGate.ReferenceIsAccepted` | backend/src/kor_travel_docker_manager/services/compose_references.py:185-198 | which holds when its scalars stand in its text |
| `LoginLimiter.Login.Attempt` | backend/src/kor_travel_docker_manager/api/auth.py:31-107 | check, then verdict, then one row; the spacing of failures is kept for all times and verdicts, and a wait is 1 to 600 s |
| `LoginLimiter.AttemptKeepsSpacing` | backend/src/kor_travel_docker_manager/services/auth_service.py:242-273 | one more attempt keeps any six failures since the last success at least a window apart |
| `LoginLimiter.AtMostFiveInAnyWindow` | backend/src/kor_travel_docker_manager/services/auth_service.py:29-30 | at most five counted failures since the last success lie in any window of 600 s |
| `LoginLimiter.CountedAreATail` | backend/src/kor_travel_docker_manager/services/auth_service.py:244-268 | what the queries count are the failures since the last success that are still in the window |
| `LoginLimiter.WaitIsBounded` | backend/src/kor_travel_docker_manager/services/auth_service.py:269-273 | a reported wait is between one second and ten minutes |
| `LoginLimiter.DeniedAttemptsDoNotCount` | backend/src/kor_travel_docker_manager/services/auth_service.py:257-266 | rows of denied attempts change no later check |
| `LoginLimiter.LetInWhenTheOldestLeaves` | backend/src/kor_travel_docker_manager/services/auth_service.py:267-273 | a client turned away is let in at a later time iff the oldest counted failure has left the window by then, however often it tries in vain |
| `LoginLimiter.LetInAfterTheWait` | backend/src/kor_travel_docker_manager/services/auth_service.py:269-273 | one second after the reported wait it is let in |
| `LoginLimiter.LetInAtTheWait` | backend/src/kor_travel_docker_manager/services/auth_service.py:269-273 | at the reported wait itself it is let in iff the remaining time was whole seconds, or less than one |
| `LoginLimiter.TheWaitAloneMayBeTooShort` | backend/src/kor_travel_docker_manager/services/auth_service.py:270-273 | a history where it is not: five failures, told to wait 599 s, turned away again after 599 s |
| `Base64Url.RoundTrip` | backend/src/kor_travel_docker_manager/services/auth_service.py:605-610 | unpadded encoding, then padding and decoding, is the identity on all byte strings (section 5 of RFC 4648) |
| `Base64Url.NoDots` | backend/src/kor_travel_docker_manager/services/auth_service.py:131-132 | encoded text contains no dot |
| `Base64Url.EncodingIsInjective` | backend/src/kor_travel_docker_manager/services/auth_service.py:605-606 | different byte strings have different encodings |
| `SessionCookie.SplitInTwo` | backend/src/kor_travel_docker_manager/services/auth_service.py:419-422 | two dot-free parts joined by a dot split into those two |
| `SessionCookie.Functions.MintedCookieDecodes` | backend/src/kor_travel_docker_manager/services/auth_service.py:418-429 | a minted cookie decodes to its own claims |
| `SessionCookie.Functions.ClaimsDoNotDependOnTheSecret` | backend/src/kor_travel_docker_manager/services/auth_service.py:418-429 | under whatever secrets a cookie decodes, it decodes to the same claims |
| `SessionCookie.Sessions.Create` | backend/src/kor_travel_docker_manager/services/auth_service.py:115-154 | one row per new session hash, the cookie minted from its claims, all other rows untouched: the step of the reference run |
| `SessionCookie.Sessions.Revoke` | backend/src/kor_travel_docker_manager/services/auth_service.py:201-217 | the row of a valid cookie is revoked and no other changes; after whatever logins and logouts follow, the cookie fails validation for every request |
| `SessionCookie.RevokedCookieIsDead` | backend/src/kor_travel_docker_manager/services/auth_service.py:165-217 | once revoked, a cookie fails validation after any sequence of logins and logouts, at any time, from any browser, under any secret |
| `SessionCookie.AcceptedCookieIsGenuine` | backend/src/kor_travel_docker_manager/services/auth_service.py:165-198 | an accepted cookie was signed by the service, and its own row is there, unrevoked and unexpired |
| `SessionCookie.NewCookieIsAccepted` | backend/src/kor_travel_docker_manager/services/auth_service.py:115-217 | the life of a session: after its login and any logins and logouts, the cookie is accepted iff administrator and browser fingerprint agree, its second of expiry has not come, and no logout was made with a cookie of this session |
| `ConciergeProjection.Select` | backend/src/kor_travel_docker_manager/services/concierge_activation.py:349-378 | the worklist ends with the least set containing the four services and closed under depends_on; it refuses iff some needed name is no proper service |
| `ConciergeProjection.LeastClosedIsUnique` | backend/src/kor_travel_docker_manager/services/concierge_activation.py:349-378 | there is only one such set |
| `ConciergeProjection.Project` | backend/src/kor_travel_docker_manager/services/concierge_activation.py:342-403 | the result is the projection onto those services, and a refusal means there is none |
| `ConciergeProjection.FilterKeepsOrder` | backend/src/kor_travel_docker_manager/services/concierge_activation.py:380-384 | kept entries stay in source order |
| `ConciergeProjection.ReferencesCollect` | backend/src/kor_travel_docker_manager/services/concierge_activation.py:406-433 | a name is referred to iff one of the services refers to it; improper references are refused |
| `ConciergeProjection.ExactlyReferencedDefinitionsAreKept` | backend/src/kor_travel_docker_manager/services/concierge_activation.py:389-402 | a top-level definition is kept iff a kept service refers to it |
| `ConciergeProjection.ProjectionIsIdempotent` | backend/src/kor_travel_docker_manager/services/concierge_activation.py:342-403 | a projection projects to itself and to nothing else |
| `WebSocketAdmission.ResolveLimit` | backend/src/kor_travel_docker_manager/api/websocket.py:240-249 | the limit is always between 1 and 10000 |
| `WebSocketAdmission.Gate.Begin` | backend/src/kor_travel_docker_manager/api/websocket.py:262-279 | one uninterrupted step: refused iff the limit is reached, counted, and logged only when refusals begin or end |
| `WebSocketAdmission.Gate.End` | backend/src/kor_travel_docker_manager/api/websocket.py:280-283 | leaving undoes entering, however the authorisation ended |
| `WebSocketAdmission.EveryInterleaving` | backend/src/kor_travel_docker_manager/api/websocket.py:252-283 | in every interleaving at most the limit is in flight, refusals are counted one by one, their logged beginnings and ends alternate, and a beginning is logged at a full house only |
| `WebSocketAdmission.InFlightIsAdmittedAndNotLeft` | backend/src/kor_travel_docker_manager/api/websocket.py:279-283 | an authorisation is in flight iff its handler was admitted and has not left |
| `WebSocketAdmission.Play` | backend/src/kor_travel_docker_manager/api/websocket.py:252-283 | any interleaving played on the globals: the counter is the number in flight |
| `WebSocketReauth.NextDeadline` | backend/src/kor_travel_docker_manager/api/websocket.py:229-237 | a deadline is at least 60 and less than 72 seconds ahead when set |
| `WebSocketReauth.StatusLoop` | backend/src/kor_travel_docker_manager/api/websocket.py:446-473 | the status loop computes the reference run |
| `WebSocketReauth.LogLoop` | backend/src/kor_travel_docker_manager/api/websocket.py:581-618 | the log loop computes the reference run |
| `WebSocketReauth.StatusIsNeverStale` | backend/src/kor_travel_docker_manager/api/websocket.py:413-473 | while a status socket is open its session was found good less than 72 seconds before the latest wake, whatever the client sends; until the first revalidation that was at the handshake, and the time from there to the start of the loop is added |
| `WebSocketReauth.LogIsNeverStale` | backend/src/kor_travel_docker_manager/api/websocket.py:579-600 | the same for a log socket |
| `WebSocketReauth.ChunksNeedAGoodSession` | backend/src/kor_travel_docker_manager/api/websocket.py:589-615 | a chunk is sent only before the deadline or after a successful revalidation in the same turn |
| `WebSocketReauth.EveryChunkIsSentOnce` | backend/src/kor_travel_docker_manager/api/websocket.py:608-618 | while open, every chunk read was sent, once and in order |
| `WebSocketReauth.LogFramesDoNotMatter` | backend/src/kor_travel_docker_manager/api/websocket.py:602-606 | client frames make no difference to a log socket |
| `WebSocketReauth.StatusFramesDoNotPostpone` | backend/src/kor_travel_docker_manager/api/websocket.py:454-465 | a frame before the deadline changes nothing, and one after it is like silence |
| `WebSocketReauth.StatusIgnoresTimelyFrames` | backend/src/kor_travel_docker_manager/api/websocket.py:454-461 | dropping a timely frame from a run changes nothing later |

## Left out

- The remainder of a pattern from its first bracket or escaped letter or digit on is an arbitrary predicate, so back-references and character classes are not given a meaning.
- Reading and trimming the lines of an ignore file, and the rejection of expressions that do not compile (build_context_export.py:99-138).
- Changes to the source tree during the export, file descriptors, `O_NOFOLLOW`, directory modes and `umask`.
- M05Driver.Host.RunOnce: setup, body and cleanup are steps that succeed or fault; what they run, how the ledger writes a claim file, the journal and the text written to standard error are not part of this model.
- M05Driver.Host.Replay: pins and registry change between runs only, as under the host-wide mutation lock of the launcher; a rotation while a run is under way is not part of this model.
- A process killed while the driver is running: its `finally` is taken to run.
- The leaf checks other than the one on unconditional blocks.
- TerminalGraph.EveryRevisionIsAnAncestorOfTheHead: the parents of a revision are what iterating over its `down_revision` yields, which for a bare string would be its characters.
- StreamCapture.RunWithBoundedOutput: the two streams are drained one after the other; they share no state.
- ImageRetention.ReconcileGeneration: the global rebuild lock is held, so no other process changes tags between two commands; the refusals that only such a change could cause are kept but not exercised.
- The text of Docker's answers (identifiers, error messages, listing columns) and how it is parsed.
- DeployStatus.RoundTrip: JSON is an algebraic value; text encoding, the size limit and atomic replacement are a write that goes through or not.
- The deploy steps between begin and commit, and the live databases they look at.
- Mapping keys that are not strings, in the reference gate; YAML anchors and tags.
- The check of resolved documents and of `env_file` contents (compose_references.py:215-420).
- LoginLimiter.Login.Attempt: the rows are one client's and are kept for the window; attempts of one client do not overlap; audit pruning is not part of this model.
- Base64Url.Decode: text outside the alphabet goes to an arbitrary function.
- SessionCookie.NewCookieIsAccepted: moments are whole microseconds after the epoch; a change of the host's time-zone offset between minting and validating, which shifts both numbers the code compares, is not modelled.
- Password hashing, origins, proxies and the HTTP responses of the login routes.
- ConciergeProjection.Project: YAML loading, duplicate keys and the temporary file around the projection.
- WebSocketAdmission.Gate.Begin: a limit that the environment changes between two handshakes is covered by the bounds of the limits in force, not by the latest one alone.
- WebSocketReauth.LogLoop: a send that fails ends the handler; handshake time-outs, broadcasting and the close frames are not part of this model.
- `map_application_candidate.py`, `cli.py`, `host_edges.py`, port selection, metrics and the frontend: foreign effects or small members.
