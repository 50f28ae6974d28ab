# Production recovery and release tooling

This project models the tools that keep a two-service Nextcloud production safe, and proves what they promise.

- **The recovery journal** (`Text`, `Ledger`, `Journal`, `Commitments`, `Evidence`, `Append`, `Sizes`, `Runs`). Pages of
  database events are kept in an append-only signed file. Each page carries a hash chain of the database's own history
  and a commitment to a head that may not have been fetched yet; each record links to the record before.
- **The replay planner and its gate** (`Facts`, `Replay`, `Recovery`, `Promises`, `Gate`, `Reopening`). A window of the
  journal, with the permanent facts of the whole prefix, is folded into a fail-closed plan; a second program checks the
  plan against a checkpoint and the live services against the plan.
- **The release transaction** (`Selection`, `Updater`, `Release`, `Transactions`, `Safety`, `Restoration`, `Early`,
  `Resumption`, `Boundary`, `Outcomes`, `Lineage`, `Provenance`, `Retries`, `Attempts`, `Completion`, `Hazards`).
  `Updater` is a machine that takes one durable write or outside effect per step; every step may succeed, raise or be
  cut short by a crash, and user rows arrive whenever the ingress is up. `Release` is the program as it is written, with
  its methods, try blocks and handlers, proved to take exactly the machine's steps. The other modules prove what holds
  over every run, and `Completion`, `Attempts` and `Hazards` which runs there are.
- **The range download** (`Ranges`, `Replies`, `Download`, `Assets`), **the image identity walk** (`ImageIdentity`),
  **the split image archive** (`Archive`), **the fixture's schedules** (`Schedules`) and **the contract checker's
  scanner** (`Contract`, `Tokens`).
- **What each check looks at** (`Formats`, `PageFaults`, `JournalFaults`, `PlanFaults`, `GateFaults`, `OfferFaults`,
  `ImageFacts`). Every test of the programs is written down a second time, on raw fields and literal constants, as the
  first fault that the program would meet; the lemmas named `...Exactly` prove that an input is accepted if and only if
  there is no such fault.

`Wrappers` and `Sequences` hold helpers. Verify everything with `dafny verify dfyconfig.toml`.

## Assumptions

- SHA-256, HMAC and JSON are functions of an environment. `Codec` says that the JSON codec is a round trip on one line of
  text and that a digest is 64 hexadecimal characters. Freedom from collisions is assumed only of the texts that the
  journals in question actually hash, together with the claim that none of them hashes to ZERO; the newline-joined
  encoding under the hash is proved injective, not assumed.
- `Sizes.Compact` says that the JSON of a record is no longer than its texts, with two escapes of six characters for a
  character outside printable ASCII, plus 1000 characters per event and 2000 per record for keys, quotes and
  punctuation, and that a signature is 64 hexadecimal characters.
- The time is a parameter, one per operation, and does not run backwards within a run.
- The ancestor relation of the repository is transitive (`Lineage`).
- A file replacement is atomic. Stopping, starting, migrating, copying and restoring may leave anything behind in the
  piece they touch when they do not succeed.

## Where the code does less than it says

- The comment before line 575 of `deploy/production/release.py` calls the success record authoritative. If the write of
  the success, the removal of the journal or the announcement after it raises, and only then, the handler's mark puts
  the success on disk together with a demand for manual recovery (`Outcomes.CoincideExactly`, the three causes in
  `Hazards.SuccessAndManualRecovery`), and the next check drops the journal: `Boundary.FinishedJournalIsDropped`.
- "Nothing is restored before changing is on disk" holds exactly if no step up to and including the write of "changing"
  failed while a complete checkpoint was there: `Early.RestoresFindPreparing`. Each way to fail so is possible
  (`Hazards.EveryCauseIsReal`) and can end with users on a half-restored database (`Hazards.HalfRestoredIsResumed`).
  Without such a failure a resumed deployment is intact: `Resumption.ResumedMeansUntouched`.
- A repeated recovery discards rows accepted after the first one let users in: `Hazards.RowsOfReadmissionAreLost`.
  Without such a readmission a restore discards no accepted row: `Restoration.RestoreLosesNoRow`.
- A checkpoint left over under a new tag is restored as if it were the update's own:
  `Hazards.LeftOverCheckpointIsRestored`. Without one every restore has its own checkpoint:
  `Resumption.EveryRestoreHasItsCheckpoint`.
- "Maximum 3 attempts" holds exactly as long as no count is lost (its write raises, or the process ends before it) and
  no third or later count is left without its mark: `Attempts.MoreThanThreeExactly`. Lost counts have no bound:
  `Attempts.LostCountsAreForgotten`.
- A journal file that exists but is empty, as a refused first append leaves it, can never be collected into:
  `Append.JournalFile.Collect`.
- An archive of more than twenty parts is built but never accepted: `Archive.SplitJoinRoundTrip`.
- A runtime digest equal to the expected id is accepted without a look at its content when no descriptor is given:
  `ImageIdentity.ShortcutSkipsTheGraph`.
- The scanner of Go text looks at the second character of a comment bracket on its own, so overlapping ones mislead it:
  `Contract.ScansAsGoExactly`, `Contract.OverlapMisleads`.

## Model

| member | source | states |
|---|---|---|
| Text.IntegerRoundTrip | scripts/ops/publication-recovery-journal.py:42-45 | a sequence number written by str() is read back as itself if it is within the 63-bit limit, and refused otherwise |
| Text.DecimalRoundTrip | scripts/ops/publication-recovery-journal.py:42-45 | a validated sequence field has exactly one spelling: str(int(s)) gives s back |
| Text.JoinInjective | scripts/ops/publication-recovery-journal.py:85-100 | newline-joined fields without newlines determine the list of fields, whatever its length |
| Formats.NumberExactly | scripts/ops/publication-recovery-journal.py:42-45 | a sequence field is valid exactly if it is str() of a number below 2^63, and it stands for that number |
| Formats.IdentifierExactly | scripts/ops/publication-recovery-journal.py:55-56 | an identifier is valid exactly if it is drawn from the 64 letters, digits, underscore and hyphen within its length |
| Formats.UuidExactly | scripts/ops/publication-recovery-journal.py:54-54 | a UUID is valid exactly if it has the pattern 8-4-4-4-12 of lower-case hexadecimal digits |
| Ledger.ValidateItems | scripts/ops/publication-recovery-journal.py:114-123 | the loop over a page accepts exactly the pages whose every event is acceptable in place, and returns the chain over all of them |
| Ledger.ValidatePage | scripts/ops/publication-recovery-journal.py:102-127 | a page is accepted if and only if header, events, recomputed chain and footer all fit |
| Ledger.PageShape | scripts/ops/publication-recovery-journal.py:102-127 | after + number of items = next <= head; at the head the recomputed chain is the announced head chain; only a page at its head may be empty |
| Ledger.ChainConcat | scripts/ops/publication-recovery-journal.py:114-124 | the chain over two stretches of events is the chain over the second from where the first ends |
| Ledger.PageStaysValid | scripts/ops/publication-recovery-journal.py:60-61 | a page accepted once is accepted at every later time |
| PageFaults.TargetExactly | scripts/ops/publication-recovery-journal.py:50-69 | a target closure on its event is accepted exactly if its first-fault check finds nothing: fields, times (milliseconds against seconds), receipt over nine lines, root key, scope |
| PageFaults.TenantExactly | scripts/ops/publication-recovery-journal.py:71-83 | the same for a tenant deletion on its event |
| PageFaults.EventTextExactly | scripts/ops/publication-recovery-journal.py:85-100 | the text hashed for an event is this one, line by line, with the closure's fields last |
| PageFaults.KindNames | scripts/ops/publication-recovery-journal.py:22-24 | the seventeen kinds of events and their names |
| PageFaults.AcceptedExactly | scripts/ops/publication-recovery-journal.py:102-127 | both directions on the raw fields: a page is accepted if and only if no check, in the order of the program, finds a fault |
| Journal.CollectCommitments | scripts/ops/publication-recovery-journal.py:177-183 | succeeds exactly if no two records announce different digests for one head, and then maps every head to its digest |
| Journal.WalkPage | scripts/ops/publication-recovery-journal.py:186-191 | accepts a page exactly if at every event that an earlier record has committed to, the recomputed chain is the announced one |
| Journal.ValidateHeadCommitments | scripts/ops/publication-recovery-journal.py:177-191 | accepts a page exactly if it contradicts no head witnessed before: not as head, not as cursor, not at any event inside it |
| Journal.CheckLine | scripts/ops/publication-recovery-journal.py:162-174 | one line is accepted exactly if it parses, is the signer's own record, holds an acceptable page, and follows the records before it |
| Journal.ReadRecords | scripts/ops/publication-recovery-journal.py:160-175 | the reading loop with its running variables returns what re-validating the whole file from its first line returns |
| Commitments.RecordAt | scripts/ops/publication-recovery-journal.py:160-175 | every prefix of an accepted journal is accepted and the next record follows from it |
| Commitments.RetainedChain | scripts/ops/publication-recovery-journal.py:160-175 | the retained events are sequences 1, 2, ... without gap, and their chain recomputed from the first is the one the file ends with |
| Commitments.HeadCommitmentHonoured | scripts/ops/publication-recovery-journal.py:160-191 | a head announced by any record binds the history for good: once the retained events reach it, the chain recomputed from the first event equals the announced digest, wherever in later pages it falls |
| Commitments.HeadCommitmentsAgree | scripts/ops/publication-recovery-journal.py:177-185 | two records of an accepted journal that announce the same head announce the same digest |
| Commitments.ReadIsJournal | scripts/ops/publication-recovery-journal.py:160-175 | whatever the reader returns is a journal in the sense of these lemmas |
| JournalFaults.RecordExactly | scripts/ops/publication-recovery-journal.py:156-191 | a record may follow the ones before exactly if digest, signature, page, link, source and all announced heads are right, field by field |
| JournalFaults.AppendExactly | scripts/ops/publication-recovery-journal.py:207-230 | a page is appended exactly if the file is readable and no check finds a fault; the line that is written is spelled out: body, link, digest, signature |
| Evidence.PreimageInjective | scripts/ops/publication-recovery-journal.py:85-100 | the text hashed for an event gives back the previous chain value and the whole event, across all kinds: no field holds a newline, "-" is no file id, and the kind fixes the number of fields |
| Evidence.ChainDeterminesEvents | scripts/ops/publication-recovery-journal.py:85-124 | without a collision among the texts actually hashed, equal chain values mean equal event lists, of equal length |
| Evidence.SharedChainSharedHistory | scripts/ops/publication-recovery-journal.py:85-175 | two accepted journals, whoever signed them and whenever they were read, that show one chain value at m and n have m = n and the same first m events |
| Evidence.RecordIsSigned | scripts/ops/publication-recovery-journal.py:156-173 | every record of an accepted journal is exactly what the signer makes of its body, and links to the digest of the record before or to ZERO |
| Evidence.PinDeterminesPrefix | scripts/ops/publication-recovery-journal.py:156-175 | one pin names one position and the whole journal before it, even across two copies of the file |
| Evidence.PinsDistinct | scripts/ops/publication-recovery-journal.py:156-175 | no two records of an accepted journal share a digest |
| Append.JournalFile.Append | scripts/ops/publication-recovery-journal.py:207-230 | one call leaves the file alone or adds exactly the specified line, and returns the pin of the record that holds the page; a refusal changes no content |
| Append.JournalFile.Verify | scripts/ops/publication-recovery-journal.py:232-239 | succeeds exactly for an accepted, non-empty file, and then reports its number of records, its last pin, its number of events and its last head |
| JournalFaults.SummaryExactly | scripts/ops/publication-recovery-journal.py:232-239 | what a report says is fixed to the field: instance, stream, cursor, head, completeness, pin and number of records |
| Append.JournalFile.Collect | scripts/ops/publication-recovery-journal.py:325-343 | returns a report exactly if every page up to the first without more is among the first max_pages and can be appended, and the journal is not present but empty; the report describes the file as those pages leave it, complete to its head; nothing else is ever added |
| Append.ReadStaysValid | scripts/ops/publication-recovery-journal.py:160-175 | an accepted file stays accepted, with the same records, as time passes |
| Append.ReadExtended | scripts/ops/publication-recovery-journal.py:160-175 | a file grown by one canonical line reads as the old records and that one, or is refused |
| Append.AppendEndsComplete | scripts/ops/publication-recovery-journal.py:341-342 | after a page with nothing more to come the journal is complete to its head |
| Runs.EmptyPageIsRepoll | scripts/ops/publication-recovery-journal.py:214-219 | a page without events that continues a journal is exactly the empty re-poll |
| Runs.AppendStep | scripts/ops/publication-recovery-journal.py:207-230 | an accepted call leaves the file unchanged or extends it by one record that carries events, and the result is accepted again |
| Runs.EveryRunIsAccepted | scripts/ops/publication-recovery-journal.py:160-230 | after any sequence of calls, refused or accepted, the reader accepts the file at any later time; every record after the first has events, and witnessed heads never fall |
| Runs.ReadableExactly | scripts/ops/publication-recovery-journal.py:160-230 | without any assumption on the length of lines: the file is accepted if and only if each line that was written is within the reader's limit |
| Runs.EveryRunExtends | scripts/ops/publication-recovery-journal.py:207-230 | over any run the file only grows: each earlier content is a prefix of each later one |
| Runs.TornAppendRefused | scripts/ops/publication-recovery-journal.py:162-163 | a write cut short anywhere inside its line makes the reader refuse the file; no torn line passes for a record |
| Sizes.PageAtMost | scripts/ops/publication-recovery-journal.py:102-127 | the field checks bound the text of a page of at most 200 events to 601,000 bytes of JSON, keys and punctuation included |
| Sizes.RecordFits | scripts/ops/publication-recovery-journal.py:163-163 | so a record that signs an accepted page is always within the limit of the reading loop |
| Facts.TargetMapMeaning | scripts/ops/publication-recovery-journal.py:272-283 | the collected closures are exactly those of the events, each under its operation |
| Facts.CollectTargets | scripts/ops/publication-recovery-journal.py:272-283 | the fold with its three identity dictionaries succeeds exactly if all closures of the history are pairwise compatible and of the one instance, and collects them all |
| Facts.TargetStep | scripts/ops/publication-recovery-journal.py:276-283 | checking one closure against the dictionaries is checking it against every closure before it |
| Facts.CollectTenants | scripts/ops/publication-recovery-journal.py:284-292 | the fold succeeds exactly if no namespace has two different deletions, and collects them all |
| Facts.TenantMapMeaning | scripts/ops/publication-recovery-journal.py:284-292 | the collected tenant deletions are exactly those of the events, each under its namespace |
| Facts.TargetsPersist | scripts/ops/publication-recovery-journal.py:272-283 | closures of a longer history include those of a shorter one, unchanged |
| PlanFaults.ClosuresExactly | scripts/ops/publication-recovery-journal.py:272-283 | the closures of a history are accepted if and only if they are of the instance, at most 10000, and any two different ones differ in operation, in binding, in the pair of tenant and knowledge base, and in root; then all are kept |
| PlanFaults.DeletionsExactly | scripts/ops/publication-recovery-journal.py:284-292 | tenant deletions are accepted if and only if no two different ones share origin and tenant number; then all are kept, also several tenants under one origin |
| Facts.ClosuresAreDistinct | scripts/ops/publication-recovery-journal.py:272-283 | closures that the fold accepts share no binding, no pair of tenant and knowledge base, and no root |
| Replay.FoldWindow | scripts/ops/publication-recovery-journal.py:297-311 | the fold succeeds exactly if content events name their file and no revision goes back, and then reports the last event of each kind per binding and per file |
| Replay.CollectPrefixes | scripts/ops/publication-recovery-journal.py:267-271 | one recomputed chain value for every sequence from checkpoint to end, equal to the chain from the very first event, and for no other sequence |
| Replay.PagePrefixes | scripts/ops/publication-recovery-journal.py:267-271 | one page: every sequence of it gets the chain recomputed from the very first event, and no other one |
| Replay.ContentOkStep | scripts/ops/publication-recovery-journal.py:306-311 | comparing a revision with the last one of its file is comparing it with all of them |
| Recovery.CheckpointAnchor | scripts/ops/publication-recovery-journal.py:241-255 | an anchor is given if and only if exactly one record has the pin and its page reached its head; it is then the state after that record |
| PlanFaults.AnchorHolds | scripts/ops/publication-recovery-journal.py:251-255 | what an anchor holds of the record it pins |
| Recovery.ReplayPlan | scripts/ops/publication-recovery-journal.py:257-323 | a plan is drawn up if and only if the pins are found in order, the head is reached, facts are consistent and covered and revisions never go back; it is then the plan of that window |
| PlanFaults.PlannedExactly | scripts/ops/publication-recovery-journal.py:257-311 | a plan can be drawn up if and only if none of nine reasons stands against it, each on the fields of the retained events |
| PlanFaults.PlanHolds | scripts/ops/publication-recovery-journal.py:257-323 | what a plan holds: both ends of its window, the events between, every closure under its operation, every deletion under origin and tenant, the last content event of each file |
| Promises.WithdrawalsAreExact | scripts/ops/publication-recovery-journal.py:297-318 | the withdrawn files of a plan are exactly those with a withdrawn or delete event in the window, whatever followed; each one's binding is closed at its last event or later |
| Promises.ClosuresAreExact | scripts/ops/publication-recovery-journal.py:302-303 | the closed bindings are exactly those with an event other than a tenant deletion, each with its maximal sequence |
| Promises.RevisionsNeverRegress | scripts/ops/publication-recovery-journal.py:306-311 | a reported revision is the maximum over all content events of its file in the window, and writing tells the kind of the last of them |
| Promises.WideningKeepsWithdrawals | scripts/ops/publication-recovery-journal.py:298-318 | widening the window at either end drops no withdrawal and no closed binding |
| Promises.PermanentFactsPersist | scripts/ops/publication-recovery-journal.py:272-292 | a plan that reaches further keeps every closure and every tenant deletion of one that stops earlier, unchanged, whatever the anchors and whatever was appended between |
| Promises.IdentitiesAreDistinct | scripts/ops/publication-recovery-journal.py:272-296 | within a plan operations, bindings, pairs of tenant and knowledge base, and roots are pairwise distinct, and each target closed by its tenant's deletion has that deletion in the plan |
| Gate.PlanPassesGate | scripts/ops/coordinated-recovery-gate.py:67-77 | every plan for a pin that an anchor was given for, even on an older copy of the journal, passes all checks of the gate; its prefixes are the true chain values and its events as many as its sequences |
| Gate.PrefixRange | scripts/ops/coordinated-recovery-gate.py:75-76 | the keys of the collected prefixes are exactly the decimals from checkpoint to end |
| Gate.AnchorNeverAmbiguous | scripts/ops/publication-recovery-journal.py:250-251 | the digest of a retained record matches that record only, so neither anchor nor plan can resolve a pin to another one |
| GateFaults.PlanExactly | scripts/ops/coordinated-recovery-gate.py:67-77 | a plan file is taken exactly if it is signed with the key and no check against the anchor finds a fault, field by field |
| Reopening.InventoryBinding | scripts/ops/coordinated-recovery-gate.py:47-65 | the loop with four growing sets accepts exactly the inventories whose pairs are well formed, ordered, and share none of their four identities |
| GateFaults.InventoryExactly | scripts/ops/coordinated-recovery-gate.py:49-62 | an inventory is bound to a checkpoint exactly if no check finds a fault, pair by pair and in the order of operations |
| Reopening.VerifyCurrent | scripts/ops/coordinated-recovery-gate.py:79-114 | the live state passes exactly if receipts, scopes, withdrawals and every original source fit the phase; the verdict names phase, plan and inventory digest, all original operations and, in order, the reconciled ones; reopening is never permitted |
| GateFaults.CurrentExactly | scripts/ops/coordinated-recovery-gate.py:79-113 | the live state passes if and only if none of twelve faults is found, on the lists as they are, without the dictionaries of the program |
| Reopening.NothingWithdrawnIsPublished | scripts/ops/coordinated-recovery-gate.py:92-112 | both programs together: once the sources verify against a plan of the journal, no original source publishes a file withdrawn or deleted after the checkpoint |
| Selection.SelectRelease | deploy/production/release.py:189-200 | the filter loop and max() return the specified candidate |
| Selection.SelectedIsLatest | deploy/production/release.py:189-200 | something is selected exactly if there is a candidate, and no candidate comes after it by publication time and tag |
| Selection.SelectedIsUnique | deploy/production/release.py:189-200 | whatever candidate no other one comes after is the one selected: publication time and tag leave no ties |
| OfferFaults.CandidateExactly | deploy/production/release.py:189-199 | a release is a candidate exactly if it is no draft or prerelease, its tag has the production form, was not seen, and it is newer than the last success |
| OfferFaults.SelectedIsNewest | deploy/production/release.py:200-200 | no candidate was published after the selected one, and none at the same time has a greater tag |
| OfferFaults.AncestryExactly | deploy/production/release.py:600-609 | a commit is accepted exactly if it is merged into the main branch and descends from the last success, or from a baseline that is this repository's |
| OfferFaults.ManifestExactly | deploy/production/release.py:147-186 | a manifest is accepted if and only if no check, in the order of the program, finds a fault, with every literal spelled out |
| Release.UpdaterProcess.Recover | deploy/production/release.py:513-547 | takes the recovery steps of the machine in order; an exception anywhere leads to the manual mark |
| Release.UpdaterProcess.ResumePrevious | deploy/production/release.py:560-566 | points back, lets users in, and goes on to the mark; an exception ends the process |
| Release.UpdaterProcess.Interrupted | deploy/production/release.py:568-594 | a journal is dropped, refused, resumed or recovered as the machine says, with the except branch as written |
| Release.UpdaterProcess.TryChange | deploy/production/release.py:683-717 | the try block up to the traffic boundary, with the transaction in memory as it is when an exception leaves it |
| Release.UpdaterProcess.TryPublish | deploy/production/release.py:718-739 | the try block from the traffic boundary to its last statement: the boundary is written before users are let in, and a raise after the removal of the journal still reaches the handler |
| Release.UpdaterProcess.Handle | deploy/production/release.py:740-764 | the exception handler never returns normally and takes the machine's branch for phase and checkpoint as they are then |
| Release.UpdaterProcess.Apply | deploy/production/release.py:596-764 | the whole of apply(): resolve, remember, descend, stage, journal, mark, try, handle |
| Release.UpdaterProcess.Dismiss | deploy/production/release.py:773-784 | an exception for an unmarked tag is counted if transient, and rejects the tag at the third count or at once |
| Release.UpdaterProcess.Check | deploy/production/release.py:766-784 | one run of the timer ends with no process left, whatever happens at whatever step |
| Release.UpdaterProcess.Serve | deploy/production/release.py:766-805 | over any history of starts, step outcomes, crashes and user rows, the program as written leaves exactly the disk, log and history of the step machine, so every lemma below is about it |
| Transactions.LocalAct | deploy/production/release.py:568-764 | after every step, failure or crash, memory and disk are in one of the listed relations: the phase on disk never runs ahead of memory, and each step finds the phase it relies on |
| Provenance.OnlyReviewedIsStaged | deploy/production/release.py:596-682 | over every run, a release is staged or journaled only if it is an unseen newer production release, its commit is the one first observed, merged and descending, and, to be journaled, its manifest has no fault |
| Safety.EveryRunIsSafe | deploy/production/release.py:568-764 | over every run: no tag is journaled twice, an open transaction is only replaced by one of the same tag, release, images and database are changed by an update only with "changing" on disk, and once the traffic boundary was written for a tag nothing of its checkpoint is put back |
| Safety.AccountStep | deploy/production/release.py:575-594 | one effect on the disk: a journaled tag stays marked or open, and an open transaction past the boundary stays past it |
| Restoration.EveryRunIsSound | deploy/production/release.py:513-547 | over every run: checkpoints are taken before the update changes anything, are never overwritten, lead back to the release that was current, and are restored only while their transaction is open and before the boundary |
| Restoration.RestoredMeansRestored | deploy/production/release.py:513-547 | a tag is recorded as restored only when release, images, configuration and schema are those that its checkpoint found, and every row found then is still there, even if a recovery was cut short and run again |
| Restoration.RestoreLosesNothingUnlessReadmitted | deploy/production/release.py:522-545 | a restore follows either a readmission of the same update or an unbroken silence of the ingress since the checkpoint |
| Restoration.RestoreLosesNoRow | deploy/production/release.py:522-545 | when a database is about to be put back and no recovery has let users in since its checkpoint, no user row was accepted since: what is put back is the database of that moment |
| Early.RestoresFindPreparing | deploy/production/release.py:683-750 | over every run, a step that puts a piece of a checkpoint back finds "preparing" on disk if and only if, in the same process, a step of the try block up to and including the write of "changing" raised or was refused while the tag had a complete checkpoint |
| Resumption.ResumedMeansUntouched | deploy/production/release.py:581-584 | unless the update had failed in that way, users are let back in without a restore only on the checkpointed images, configuration and schema with every row still there, and on exactly the checkpointed database unless a recovery had let them in before |
| Resumption.EveryRestoreHasItsCheckpoint | deploy/production/release.py:746-750 | if no checkpoint is left over under an unmarked tag, every recorded restore is from a checkpoint taken in the same run before the update changed anything |
| Boundary.BlocksEveryLaterCheck | deploy/production/release.py:578-580 | while a journal is past the boundary and its tag is not the recorded success, no later check, whatever happens to it, changes release, images, configuration, schema, checkpoints or the journal |
| Boundary.FinishedJournalIsDropped | deploy/production/release.py:573-577 | the exception: a journal whose tag is the recorded success is removed by the next look at it, and nothing else changes |
| Outcomes.CoincideExactly | deploy/production/release.py:734-744 | over every run, a step makes a recorded success coincide on disk with a demand for manual recovery of the same tag if and only if it is the mark of the handler, reaching the disk, right after the write of that success, the removal of its journal or the announcement after it raised |
| Outcomes.CoincideOnlyAfterFailure | deploy/production/release.py:734-744 | so the two coincide only in a run in which one of those three steps raised for that tag |
| Lineage.SuccessesDescend | deploy/production/release.py:596-609 | over every run, each success that the run records is of a production tag and of a proper commit merged into the main branch, with the five pinned images; recorded successes have strictly increasing publication times, descend from one another, and each core image follows the last as reviewed |
| Lineage.CoreChangesAtMostOnce | deploy/production/release.py:55-64 | in such a history all cores after the first are one image, and the first one's too unless it still ran the old source |
| Retries.FailuresAreBounded | deploy/production/release.py:769-784 | over every run, the transient failures of a tag are those counted on disk, those whose count was lost and the one waiting to be counted; they are at most three beyond the lost counts and the processes that ended between a third or later count and the mark; an idle, unmarked tag has at most two beyond these |
| Attempts.MoreThanThreeExactly | deploy/production/release.py:769-784 | whatever happened before, a release on offer can go on to fail more than three times, without a further lost or cut count, if and only if a count of it has been lost or a third count was cut short of its mark |
| Attempts.LostCountsAreForgotten | deploy/production/release.py:776-779 | lost counts are not bounded: from every host a release is offered to, there is a run for every number in which it fails that often and is still on offer, with no attempt on record |
| Attempts.CutCountAllowsAFourth | deploy/production/release.py:777-784 | from every such host there is a run with a fourth failure and no lost count: the process dies right after the third count |
| Hazards.EveryCauseIsReal | deploy/production/release.py:683-748 | each failure after which a restore finds "preparing" can happen, from every host the release suits: at any step up to the backup if a checkpoint is left over, else in a backup that fails after its last write or in the write of "changing" |
| Hazards.HalfRestoredIsResumed | deploy/production/release.py:581-584 | after each of these failures there is a run in which a crash cuts the restore short and the next check lets users in, on any database whatever |
| Hazards.RowsOfReadmissionAreLost | deploy/production/release.py:522-547 | from every host the release suits there is a run in which a row is accepted after a recovery let users in, and users are later let in to a database without it |
| Hazards.LeftOverCheckpointIsRestored | deploy/production/release.py:704-750 | from every host with a checkpoint already under the new tag there is a run that ends with images, database and configuration replaced by that checkpoint and the tag recorded as restored |
| Hazards.SuccessAndManualRecovery | deploy/production/release.py:734-744 | from every host the release suits, and for each of the three causes, there is a run that ends with the success and the demand for manual recovery both on disk |
| Completion.WelcomeOfferIsInstalled | deploy/production/release.py:596-739 | from every idle host a release that passes the checks can be installed: current, images, success and journal are as promised and the previous deployment is in the checkpoint |
| Provenance.FaultlessOfferIsInstalled | deploy/production/release.py:596-739 | and nothing more is asked: from every idle host a release without a fault can be installed |
| Ranges.InRange | deploy/production/parallel_download.py:109-114 | chunk i exists exactly if its first byte does, is not empty nor too long, ends where the next begins, and the last ends at the size |
| Ranges.RangesPartition | deploy/production/parallel_download.py:109-114 | every byte of the asset lies in exactly one chunk |
| Ranges.RangeTextInjective | deploy/production/parallel_download.py:61-62 | a Content-Range value names one range of one length |
| Ranges.ConformingIsHonest | deploy/production/parallel_download.py:49-67 | the answer that section 15.3.7 of RFC 9110 asks for meets the assumption made about servers |
| Ranges.AcceptedIsSlice | deploy/production/parallel_download.py:54-67 | an accepted answer of such a server is the chunk |
| Replies.UsableExactly | deploy/production/parallel_download.py:54-69 | an answer is used exactly if it came over https from a listed host (if there is a list), is a 206 with the very Content-Range, has the exact length and could be written |
| Replies.ConformingIsUsable | deploy/production/parallel_download.py:54-69 | the answer that range semantics ask for is used if its host is listed or there is no list |
| Download.Downloader.FetchChunk | deploy/production/parallel_download.py:42-78 | a cached chunk is left alone; otherwise the body of the first of three answers without a fault becomes the chunk file and nothing else changes, and it fails exactly if all three have one |
| Download.Downloader.Import | deploy/production/parallel_download.py:116-130 | the seeding loop keeps its file position at index times chunk length and writes exactly the whole chunks that were not cached, up to the first that the file no longer holds in full or that cannot be written, where it is refused |
| Download.MissingIsExact | deploy/production/parallel_download.py:132-134 | the generator yields exactly the chunks that are not cached, each once, in order |
| Download.Downloader.FetchMissing | deploy/production/parallel_download.py:132-159 | at every wait at most one request per worker is pending and every request is pending at one of the waits; requests go out in the generator's order, the loop ends, and it ends without error exactly if every missing chunk can be fetched, in whatever order requests finish |
| Download.Downloader.Assemble | deploy/production/parallel_download.py:161-184 | replaces the destination by the chunks in order exactly if each is there with its own length; otherwise everything is left as it was |
| Download.ContentLength | deploy/production/parallel_download.py:166-175 | the assembled length is the expected size |
| Download.Downloader.DownloadParallel | deploy/production/parallel_download.py:81-184 | the outcome depends on the files and answers only, not on the schedule; it succeeds exactly if every chunk is cached or served and nothing interferes with its files; any failure leaves the destination untouched and keeps every complete chunk; success puts exactly the pieces together |
| Assets.FailedStaysReady | deploy/production/parallel_download.py:81-184 | after a failed attempt every complete chunk still holds the asset's bytes |
| Assets.AssembledIsAsset | deploy/production/parallel_download.py:161-178 | an attempt that assembles, assembles the asset, whatever failed before |
| Assets.Persist | deploy/production/parallel_download.py:81-184 | over any history of attempts with any chunk lengths and worker counts, a normal end leaves the destination equal to the asset and failures leave it untouched |
| Assets.Deliver | deploy/production/parallel_download.py:81-184 | where every chunk is served by a conforming answer within three attempts and nothing interferes, one download ends with the asset in place |
| Assets.DownloadLarge | deploy/production/release.py:272-299 | what is returned has the expected digest and size, whatever servers answered; bytes that the digest rejects are removed with every chunk, and a failed download changes no destination |
| ImageIdentity.CandidatesAreExact | deploy/production/image_identity.py:227-236 | the children of an index are accepted exactly if each is well formed, and what is left are the descriptors of those for this platform, each once and in order |
| ImageFacts.NodeExactly | deploy/production/image_identity.py:192-236 | a body is read as a manifest or as an index exactly if it is one, entry by entry, with that configuration or that one child for this platform |
| ImageFacts.TargetExactly | deploy/production/image_identity.py:141-145 | the platform that is accepted is linux and amd64, each a string |
| ImageIdentity.DeclaredTypeIsIrrelevant | deploy/production/image_identity.py:200-211 | the declared media type decides only whether a body is accepted, never what an accepted body says |
| ImageIdentity.Verifier.WalkImage | deploy/production/image_identity.py:192-237 | the recursion over shared variables accepts or refuses as the specified walk does and leaves its trail; it reads at most four blobs |
| ImageIdentity.ConfigDeterminedByDigest | deploy/production/image_identity.py:192-239 | two walks from one digest that find a configuration find the same one, whatever their readers return and whatever was declared |
| ImageIdentity.WalkIsBounded | deploy/production/image_identity.py:194-237 | a successful walk reads one blob per level and the configuration, visits no digest twice and stays within the descriptor limit |
| ImageIdentity.WalkHasEvidence | deploy/production/image_identity.py:111-237 | a successful walk has seen a chain of at most four blobs, linked by digest and size, from the runtime digest to the configuration |
| ImageIdentity.ChainIsFound | deploy/production/image_identity.py:192-237 | conversely such a chain is found if the reader delivers it |
| ImageFacts.LinkedExactly | deploy/production/image_identity.py:111-237 | the evidence of a walk is a chain of blobs by digest and size, from indexes over one manifest to the configuration of an image for linux/amd64 |
| ImageFacts.VerifiedIsLinked | deploy/production/image_identity.py:173-237 | an inspection whose walk succeeds has such a chain of at most four blobs from the runtime digest, as its descriptor announces it |
| ImageFacts.LinkedIsVerified | deploy/production/image_identity.py:173-237 | conversely every such chain of at most four blobs is found, if the store delivers it and no two of its manifests and indexes share a digest |
| ImageFacts.ComparableExactly | deploy/production/image_identity.py:162-171 | a release image is compared exactly if both sides are for linux/amd64 and named by digests; the classic match is a missing descriptor with equal identifiers |
| ImageIdentity.VerifyImage | deploy/production/image_identity.py:152-242 | verified exactly for a classic match or a walk to the expected configuration; a mismatch is reported exactly for a completed walk to another one |
| ImageIdentity.OneConfigPerRuntime | deploy/production/image_identity.py:173-242 | one runtime digest is verified by walking for one expected configuration only |
| ImageIdentity.ShortcutSkipsTheGraph | deploy/production/image_identity.py:169-171 | the classic match looks at no content: it also accepts an expected id equal to a runtime digest whose graph leads elsewhere |
| Archive.CopyPart | deploy/production/manifest.py:194-206 | the inner reads fill a part up to PART_BYTES or to the end of the archive |
| Archive.Split | deploy/production/manifest.py:188-209 | the files and their listed names are the parts of the archive in order |
| Archive.PartsAreTheArchive | deploy/production/manifest.py:189-208 | the parts in order are the archive; each but the last is exactly 1700 MiB and none is empty |
| Archive.PartNamesDiffer | deploy/production/manifest.py:197-197 | no two parts share a name |
| OfferFaults.PartNameExactly | deploy/production/release.py:185-186 | part i is called images.tar.gz.part- and i in three digits |
| Archive.Join | deploy/production/release.py:660-666 | the joining loop concatenates the listed files in order |
| Archive.SplitJoinRoundTrip | deploy/production/release.py:183-186 | splitting and joining gives the archive back; its names pass the manifest check exactly if it fits in twenty parts |
| Schedules.NewStreamSchedule | integration/mock_embedding.py:20-28 | a schedule exists exactly for a maximum of 0 to 20, and starts with every slot empty |
| Schedules.NewPostprocessSchedule | integration/mock_embedding.py:115-124 | a schedule exists exactly for a maximum of 0 to 60, and starts with every slot empty and nothing counted |
| Schedules.StreamSchedule.Arm | integration/mock_embedding.py:40-52 | one slot: a repeated request changes nothing, another one is refused while a delay is armed or claimed |
| Schedules.StreamSchedule.Claim | integration/mock_embedding.py:54-61 | every stream counts, and the first after arming takes the item |
| Schedules.StreamSchedule.Finish | integration/mock_embedding.py:81-86 | only the claimed item can finish, and it frees the slot |
| Schedules.InterleaveStreams | integration/mock_embedding.py:40-86 | under every interleaving, flushes and finishes go well exactly for streams that claimed an item and have not finished |
| Schedules.PostprocessSchedule.Arm | integration/mock_embedding.py:138-156 | never armed while waiting or armed; the expected tag never changes once set |
| Schedules.PostprocessSchedule.Configure | integration/mock_embedding.py:158-166 | sets the expected tag only if it is free or the same |
| Schedules.PostprocessSchedule.Begin | integration/mock_embedding.py:168-182 | one request more is started and in flight; it takes the item if that is of its kind |
| Schedules.PostprocessSchedule.Finish | integration/mock_embedding.py:199-210 | a begun call finishes exactly once; a success raises the completed count of its kind and a failure the failed one, and its item leaves the slot in the matching state |
| Schedules.CountsFinish | integration/mock_embedding.py:122-124 | started = completed + failed + in flight for each kind, and the sequence number is their total, is kept by a finish |
| Schedules.TagExactly | integration/mock_embedding.py:142-143 | a tag is accepted exactly if it has one to 120 characters, no line break and nothing that strip() would remove |
| Schedules.CountsExactly | integration/mock_embedding.py:121-124 | in a valid schedule the sequence number is the sum of the four started counts, and started less completed less failed is the number of calls in flight, for each kind |
| Schedules.InterleaveRequests | integration/mock_embedding.py:138-210 | from any valid schedule with any open calls and under every interleaving, a request begins wherever the control is enabled and finishes exactly once; the expected tag is set by the first accepted event that names one and is that tag at every later point; the counts add up |
| Contract.Span | scripts/ops/check-weknora-openapi-contract.py:32-74 | returns the shortest slice from the start whose closing bracket brings the counted depth back to zero, and refuses exactly if there is none |
| Contract.InsideIsNested | scripts/ops/check-weknora-openapi-contract.py:67-73 | inside that slice the depth is positive everywhere |
| Tokens.CountsOutsideOnly | scripts/ops/check-weknora-openapi-contract.py:32-74 | on every text put together from plain characters, line and block comments and the three kinds of quotations, the depth after each token is that of the brackets outside comments and quotations |
| Contract.ScansAsGoExactly | scripts/ops/check-weknora-openapi-contract.py:41-65 | the loop's state is that of Go's lexical structure everywhere if and only if no comment brackets overlap |
| Contract.ScansAsGo | scripts/ops/check-weknora-openapi-contract.py:41-72 | and then the depths agree |
| Contract.OverlapMisleads | scripts/ops/check-weknora-openapi-contract.py:48-51 | where they overlap the loop can return a slice that Go would not close |
| Contract.ResolveSchema | scripts/ops/check-weknora-openapi-contract.py:144-153 | succeeds if and only if the chain of references ends, and returns its end; it terminates on every input |

## Left out

- SHA-256, HMAC, JSON, gzip, tar, PostgreSQL, Docker, `occ` and the GitHub API: functions of an environment, or steps that succeed or fail with their effect on the modelled state.
- File ownership, modes, links, inode checks, locks and excluded roots (`plain`, `key_bytes`, `open_journal`, `read_private`): behaviour of the operating system.
- Error messages and the order of presentation: every refusal is one value, and lists that a plan sorts are maps here.
- Unknown or duplicate JSON fields and wrong JSON types: the records are typed here, so inputs of another shape are refused by parsing.
- Updater.Act: the sub-steps of `Stage`, of a backup and of a migration are one step each, with any partial effect on the piece they touch; a directory left half-made by a crash counts as absent or as present.
- Updater.Perform: the checkpoint is its images, database and configuration; file sums, database roles and the self-update of the updater's own scripts are not part of it.
- Release.UpdaterProcess.Recover: it is split into four methods where the source has one; the steps and their order are the same.
- Download.Downloader.FetchAll: a request takes effect when it ends, in any order; two downloaders on one destination are not modelled: a partial file can be cut off during import and chunks can be truncated before assembly, but no file changes while it keeps its length.
- Assets.DownloadLarge: only the branch for large assets; assets of at most 32 MiB are fetched whole, in up to three attempts that each write a temporary file and replace the target once it has the announced size.
- ImageIdentity.Walk: the bounded subprocess read of `read_content` is one call of a reader that may fail or lie.
- Archive.Split: `docker save` and compression are not part of it.
- Schedules.StreamSchedule.Release: time stamps, request digests and the status view are not modelled.
- Contract.ResolveSchema: schemas are objects with at most one reference; other keys are one opaque text.
- `top_level_go_keys` and the regular-expression scans of Go text: they collect the string keys of a map literal at depth one and the declarations, routes and struct tags that are compared with the specification.
- `safe_extract`: it refuses an archive with links, devices, repeated names, paths outside three roots, more than 50000 members or too many bytes, before any file is written.
- The HTTP handlers of the fixture, database-role SQL, smoke scripts, packaging and PDF building: calls into HTTP, psql, Docker and the shell around the parts modelled here.
