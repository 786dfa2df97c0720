# A verified model of the Orvek harness

This project models, in Dafny, the parts of the harness that decide what a model is shown, when a task
counts as done, what an executor run may report, and what a historical export contains; and it proves
what those parts are for. Every `.dfy` file is one module; `dafny verify dfyconfig.toml` checks them all.

* **Context projection** (`Projection*`, `ProjectNative`, `Json`, `Multiples`). A session's history is repaired, cut at a
  cache epoch and two suffix boundaries, given omission notices and described by a manifest. `Projection` is
  the specification on values; `ProjectNative` holds the loops, each proved equal to it. A JSON value is its
  kind, call id, role and encoded length; a notice is modelled with its whole text, so its length is exact.
  Main results: the encoded input always fits the limit, so the final size check is unreachable; the epoch
  only moves forward, and within an epoch the input only grows at its end, with the exact exception given below;
  over every sequence of calls the number of
  rewritten inputs is bounded by the moves of the settled boundary and twice the live bytes per append budget; calls and outputs stay paired; and
  the manifest accounts for every history item and every input position exactly once.
* **Bitmaps and views** (`Bitmap`, `BitmapPages`, `Views`). Rendered pages tile their text, rows stay within
  192 columns and every painted byte is the right one inside its buffer; so re-representing segments never
  changes which view is valid or what the model is sent.
* **Paged reading and review search** (`Greedy`, `TextPages`, `ReviewSearch`, `ReviewNavigation`). Following
  pages reassembles the text and the list of matches; a search lists exactly the matching paths and lines, and
  next and previous walk one cycle through all their occurrences.
* **Contracts to certificates** (`Contract`, `Admission`, `Completion`, `Certification`). Validation and its
  cycle check are exact; compilation accepts exactly the compilable proposals and can weaken nothing; the
  evaluator certifies exactly the acceptable states and a refusal names exactly what is in the way; over the
  whole life of a task a certificate carries evidence for every check ever proposed that no amendment by the
  user took away. Follow-ups never weaken anything; an amendment may (`Certification.AmendmentMayDrop`).
* **Executor supervisor** (`Output`, `Tree`, `TreeCopy`). One output budget is conserved over two streams, the
  outcome is that of the first cause in order, a tree walk lists exactly what it may, and copies and exports
  reproduce what was listed.
* **Historical lineage** (`LineageRecords`, `LineageExport`). An export succeeds exactly when the session has a
  lineage and its resume state reads; the lineage is unique; appending to ancestors behind their cutoffs changes nothing.
* **Smaller algorithms** (`Accounting`, `CostEstimate`, `Interval`): an accounting state machine over every
  record sequence, an order-independent estimator, and closed-form catch-up over every clock.

Digests are arbitrary functions passed as parameters; no lemma needs them to be injective. Clocks, system
calls, the PNG encoder, storage and cancellation are parameters, so each result holds whatever they answer.

Where the code and its comments differ the code is followed. Two places are worth knowing. The comment on the
oversized unit promises that its notice never churns within an epoch. That fails when such a unit is the first
live one and moves the base cut: a unit that is kept can squeeze settled items out
(`ProjectionRewrite.SqueezedOut`), and one that is dropped whole can bring them back
(`ProjectionRewrite.BroughtBack`). `ProjectionRewrite.AppendOnlyIff` shows that nothing else does, unless a history
item states the digest of history it is itself part of (`ProjectionRewrite.ImitationHides`). And a drain
after the stop that would block reports no overflow even when bytes were dropped (`Output.LostOverflow`, and
exactly then by `Output.Supervisor.Drain`); the run then fails because the stream is still open, which is why
`Output.Supervisor.Supervise` can still promise that `Exited` means nothing was lost.

## Model

| member | source | states |
|---|---|---|
| ProjectNative.Run | crates/harness/src/context.rs:321-552 | the whole imperative projection, with its error exits, computes the specified one |
| ProjectNative.RepairPending | crates/harness/src/context.rs:779-800 | fails iff an open call belongs to the active request; otherwise placeholders and interrupted ids are appended in id order |
| ProjectNative.RepairHistory | crates/harness/src/context.rs:325-364 | the repair loop over the history computes the specified items, pending set and interrupted list |
| ProjectNative.SizesOf | crates/harness/src/context.rs:366-378 | prefix sums of encoded lengths with separators |
| ProjectNative.CacheEpochStart | crates/harness/src/context.rs:554-594 | the greedy epoch loop returns the specified epoch start |
| ProjectNative.SuffixStart | crates/harness/src/context.rs:596-623 | the suffix loop returns the first closed position whose suffix fits the budget |
| ProjectNative.PlanCuts | crates/harness/src/context.rs:379-413 | base, epoch and live cuts from the interlocking budgets |
| ProjectNative.BuildManifest | crates/harness/src/context.rs:463-552 | segments in order: one per stable item, the older notice, the epoch notice, the tail |
| ProjectNative.Assemble | crates/harness/src/context.rs:379-552 | plan, input, size check and manifest of repaired items |
| ProjectionBytes.SuffixFits | crates/harness/src/context.rs:596-623 | what a suffix cut keeps fits its budget, for every history |
| ProjectionBytes.NoticesFit | crates/harness/src/context.rs:414-458 | each omission notice encodes to at most 2046 bytes, and there are exactly as many as cuts omit something |
| ProjectionBytes.CutsFit | crates/harness/src/context.rs:380-413 | reserve arithmetic: kept items and reserved notices fit the limit for every cut, oversized units included |
| ProjectionBytes.ProjectionFits | crates/harness/src/context.rs:366-462 | for every history the only `Limit` failure is a limit below 4096 bytes, and every produced input fits |
| ProjectionBytes.PendingCallIff | crates/harness/src/context.rs:779-800 | a projection is refused for a pending call iff some repair point has an open call the active request owns |
| ProjectionCache.EpochsRelate | crates/harness/src/context.rs:379-459 | when a session grows past the same settled boundary its repaired items only grow and its epoch start only moves forward |
| ProjectionCache.AppendOnly | crates/harness/src/context.rs:379-459 | for every history: while the epoch has not moved, and the tail was not empty before or fits the append budget after, the earlier input is an exact prefix of the later one |
| ProjectionRewrite.AppendOnlyIff | crates/harness/src/context.rs:379-459 | while the epoch has not moved the earlier input is a prefix of the later one if, for every history, a first live unit over the append budget, where there is one, leaves the base cut where the ordinary budget has it; and only if, unless a history item states the digest of history that contains it |
| ProjectionRewrite.SqueezedOut | crates/harness/src/context.rs:390-413 | 5000 settled bytes, then 35000: the first live unit is kept whole, the base cut moves from 0 to 1 in the same epoch, and the input is rewritten |
| ProjectionRewrite.BroughtBack | crates/harness/src/context.rs:390-413 | twice 5000 settled bytes, then 36000: the first live unit is dropped whole, the base cut moves back from 1 to 0 in the same epoch, and the input is rewritten |
| ProjectionRewrite.ImitationHides | crates/harness/src/context.rs:414-442 | under a digest with a fixed point, a history of the notice its projection will carry hides a base cut that moved, so the exclusion is needed |
| ProjectionCache.OversizedIsOneUnit | crates/harness/src/context.rs:389-402 | an epoch exceeds the append budget only as one indivisible unit |
| ProjectionCache.RebasesBounded | crates/harness/src/context.rs:554-594 | each time the epoch start moves it has passed, on average, half an append budget of bytes |
| ProjectionCache.MissesOverMoves | crates/harness/src/context.rs:379-459 | over every sequence of calls, beside two for each move of the settled boundary and one more, rewritten inputs number at most twice the live bytes that the stretches between moves reached, per append budget |
| ProjectionCache.MissesAmortized | crates/harness/src/context.rs:379-459 | in particular, over every run within one settled boundary, rewritten inputs number at most one plus twice the live bytes per append budget |
| ProjectionOpen.RepairedCloses | crates/harness/src/context.rs:325-364 | repair leaves no call open |
| ProjectionOpen.CutsClosed | crates/harness/src/context.rs:554-623 | no call is open across any cut |
| ProjectionSources.RepairedCarries | crates/harness/src/context.rs:325-364 | repair keeps every history item, in order, and adds only placeholders |
| ProjectionSources.ProvenancePartition | crates/harness/src/context.rs:463-552 | segment source ranges cover every history index exactly once and input ranges every input position exactly once |
| ProjectionSources.RetainedPlusOmitted | crates/harness/src/context.rs:414-552 | retained plus omitted items equals the repaired item count |
| ProjectionSources.SegmentsHoldTheirSource | crates/harness/src/context.rs:753-777 | a retained segment shows exactly the history it claims, item by item to its end, and besides that only placeholders |
| ProjectionPairs.InterruptedExact | crates/harness/src/context.rs:779-800 | the interrupted list names exactly the unanswered calls, each once |
| ProjectionPairs.KeptOrDroppedTogether | crates/harness/src/context.rs:554-623 | each call is retained iff its output is, and comes first |
| ProjectionPairs.PairAtomicity | crates/harness/src/context.rs:325-364 | every successful projection of a well-formed history has no unanswered call and no orphaned output, and lists exactly the unanswered calls |
| Bitmap.RowEnd | crates/harness/src/context_render.rs:247-261 | the row loop stops where the specified scan stops |
| Bitmap.RowFits | crates/harness/src/context_render.rs:247-261 | a row of supported text is not empty and never reaches past 192 columns |
| Bitmap.PaintRow | crates/harness/src/context_render.rs:263-280 | after painting, every pixel byte of the page is the one specified: ink only in the row's own cells |
| Bitmap.PaintGlyph | crates/harness/src/context_render.rs:269-277 | a glyph changes exactly its thirteen bytes, all inside the buffer |
| BitmapPages.CutPage | crates/harness/src/context_render.rs:197-202 | a page takes whole rows until its body is full or the text ends |
| BitmapPages.BodyFits | crates/harness/src/context_render.rs:203-206 | every painted line and the footer lie inside the page |
| BitmapPages.PaintBody | crates/harness/src/context_render.rs:222-233 | the body shows exactly its rows, each repeated as the profile says |
| BitmapPages.PaintPage | crates/harness/src/context_render.rs:202-233 | every pixel byte of a painted page is the specified one: header lines, rule, body rows and white |
| BitmapPages.CheckSupported | crates/harness/src/context_render.rs:174-184 | unsupported text is refused, and only that or a cancellation is |
| BitmapPages.Render | crates/harness/src/context_render.rs:164-245 | the pages are the plan of the text, each of the size its specified image encodes to, and tile it without gap or overlap; without a cancellation it succeeds iff the text is supported and its pages fit the limits |
| BitmapPages.MakePage | crates/harness/src/context_render.rs:190-243 | one page: stopped by the poll, the page limit or the byte limit on what its specified image encodes to, and otherwise the planned page |
| Views.BitmapMatchesSource | crates/harness/src/context.rs:706-751 | accepts a bitmap iff it is of this segment's tool output and its pages tile it |
| Views.CheckManifest | crates/harness/src/context.rs:129-156 | accepts a manifest iff it is the regenerated one up to matching bitmaps |
| Views.ReuseRepresentations | crates/harness/src/context.rs:626-646 | each segment takes the bitmap of the first reusable cached one, if it matches, and nothing else changes |
| Views.RenderToArtifacts | crates/harness/src/context_render.rs:106-149 | stores the bitmap of a renderable text, selects native text for any other, and fails only when cancelled or not stored |
| Views.RenderEligible | crates/harness/src/context.rs:650-693 | a segment becomes the bitmap of its own output or stays as it is; undisturbed, every eligible renderable one is rendered |
| Views.NativeIsValid | crates/harness/src/context.rs:129-156 | a fresh projection is a valid view |
| Views.RerepresentingIsTransparent | crates/harness/src/context.rs:129-175 | re-representing a valid view keeps it valid and the model is sent the same items |
| Views.RenderingIsTransparent | crates/harness/src/context.rs:626-693 | reuse and then rendering of a fresh projection send exactly the native projection |
| Views.AlteredViewsAreHarmless | crates/harness/src/context.rs:166-175 | whatever a view claims, what is sent is the history or an input within the claimed limit in which calls and outputs are paired |
| Greedy.MatchesAreGreedy | crates/harness/src/context.rs:236-243 | the matches are in order, do not overlap, and nothing occurs between them |
| Greedy.ResumeAtMatch | crates/harness/src/context.rs:241-242 | searching again from a match yields the rest of the list |
| TextPages.PagesReassemble | crates/harness/src/context.rs:212-261 | following `next` from any offset gives the exact remaining bytes, for any limits in range |
| TextPages.SearchesReassemble | crates/harness/src/context.rs:212-261 | following `next_search` from any offset gives exactly the one-shot list of matches, for any limits in range |
| TextPages.SearchIsGreedy | crates/harness/src/context.rs:231-243 | and that list is every greedy non-overlapping occurrence |
| TextPages.ReadsSplit | crates/harness/src/context.rs:220-261 | a read of m + n bytes fails as the read of m does, finds the same matches, and is otherwise that read followed by one of n from where it says to go on |
| ReviewSearch.FindOccurrence | web/review/review-search.ts:100-111 | the occurrence a target selects, clamped to those there are, and their count |
| ReviewSearch.SourceRange | web/review/review-search.ts:113-129 | the smallest run of whole source characters whose folding covers the match |
| ReviewSearch.SearchReview | web/review/review-search.ts:16-82 | the count is the number of results whatever the target, and a match exists iff the target is below it and is then that result's |
| ReviewSearch.RecordLines | web/review/review-search.ts:35-58 | each line with the needle is the next result, at its own line number |
| ReviewSearch.ResultsAreMatches | web/review/review-search.ts:29-81 | a result is listed iff it is a matching path or line of one of the files |
| ReviewNavigation.PressIsTurn | web/review/review-search.ts:84-98 | moving the target and searching again is one step over occurrence counts |
| ReviewNavigation.NextAndPreviousAreInverse | web/review/review-search.ts:84-98 | next and previous undo each other on every position |
| ReviewNavigation.NextIsOneCycle | web/review/review-search.ts:84-98 | every position is reached from every other by exactly one number of presses below the total, and the total returns to the start |
| ReviewNavigation.SearchYieldsResults | web/review/review-search.ts:16-98 | what a search of the files yields can be navigated |
| ReviewNavigation.NextVisitsEveryMatch | web/review/review-search.ts:16-98 | from any position, pressing next reaches every occurrence of every matching path or line of the files at exactly one number of presses below the total, and then starts over |
| Contract.CheckAcyclic | crates/harness/src/contract.rs:211-229 | the fixpoint ends within n passes and accepts iff some order puts every dependency first |
| Contract.StuckMeansCycle | crates/harness/src/contract.rs:211-229 | a pass that adds nothing while requirements remain rules out every order |
| Contract.CheckRequirements | crates/harness/src/contract.rs:174-190 | accepts iff every requirement is well formed and ids are unique |
| Contract.CheckReferences | crates/harness/src/contract.rs:191-210 | accepts iff checks and dependencies named exist |
| Contract.CheckChecks | crates/harness/src/contract.rs:230-265 | accepts iff every check is demanded and well formed |
| Contract.Validate | crates/harness/src/contract.rs:161-267 | accepts iff the contract is valid, and reports a cycle iff that is the first thing wrong |
| Contract.ChecksAreRequired | crates/harness/src/contract.rs:230-240 | in a valid contract the defined checks are exactly the demanded ones |
| Admission.PreservesReflexive | crates/harness/src/admission.rs:239-267 | preserving obligations is reflexive |
| Admission.PreservesTransitive | crates/harness/src/admission.rs:239-267 | and transitive |
| Admission.MergeRequirements | crates/harness/src/admission.rs:187-203 | for any lists, succeeds iff no id stands for two requirements; the result is the proposal and every old requirement whose id it lacks |
| Admission.MergeChecks | crates/harness/src/admission.rs:204-214 | succeeds iff no accepted check changes; the result is the union |
| Admission.Merge | crates/harness/src/admission.rs:186-230 | succeeds iff both do, and says which failed |
| Admission.MergePreservesIff | crates/harness/src/admission.rs:186-267 | a merge fails to preserve obligations iff request, limits or delivery differ |
| Admission.DefineProposed | crates/harness/src/admission.rs:149-158 | succeeds iff no id is reserved and every check is well described; every definition and disclosure is as specified |
| Admission.InjectProfile | crates/harness/src/admission.rs:159-173 | adds exactly the profile's checks and one requirement for each |
| Admission.CheckProposal | crates/harness/src/admission.rs:97-139 | refuses exactly the proposals off the amendment path, out of bounds, ungrounded or without a behaviour check |
| Admission.DraftHasProfile | crates/harness/src/admission.rs:159-173 | the draft defines every profile check as configured, with its omission disclosed |
| Admission.DraftHasProposed | crates/harness/src/admission.rs:149-173 | profile ids never collide with proposed ones |
| Admission.CompiledIsAdmitted | crates/harness/src/admission.rs:82-237 | a compiled contract is valid, preserves the old one, and holds the whole profile and all proposed checks |
| Admission.Compile | crates/harness/src/admission.rs:82-237 | accepts exactly the compilable proposals, and weakening is reported only for changed request, limits or delivery |
| Admission.AcceptAdditive | crates/harness/src/store/submissions.rs:531-557 | the store accepts a follow-up iff one is pending and the contract is valid and weakens nothing agreed |
| Admission.CompiledIsAccepted | crates/harness/src/store/submissions.rs:531-557 | the store never refuses what was compiled for a pending follow-up |
| Admission.Amend | crates/harness/src/store.rs:1693-1718 | the user may amend to exactly the valid contracts for the same request, on a stated basis and over an admitted one; each refusal names which of these failed |
| Completion.CheckHoldsIff | crates/harness/src/completion.rs:106-203 | a check is refused for no reason iff its last attempt is current, clean, exercised, controlled and within its retry policy |
| Completion.CheckEvidence | crates/harness/src/completion.rs:104-205 | a reason for each refused check under the requirement demanding it; otherwise the job of each one's last attempt |
| Completion.ReasonsIff | crates/harness/src/completion.rs:22-220 | there is nothing to report iff the declarative acceptance predicate holds |
| Completion.RefusalNames | crates/harness/src/completion.rs:22-220 | a reason is given iff it is a raised flag of the task, an unresolved blocking finding, the refusal of a check under a requirement demanding it, or what is wrong with the candidate or delivery |
| Completion.Evaluate | crates/harness/src/completion.rs:15-233 | certifies iff the state is acceptable, naming exactly the demanded checks; a refusal names exactly what is in the way, all of it and nothing else |
| Completion.FailureSticks | crates/harness/src/completion.rs:125-203 | once a must-pass check has failed, or a retried one exceeds its bound, no later state with this contract and candidate is certified |
| Certification.ChainPreserves | crates/harness/src/admission.rs:239-267 | no chain of follow-ups weakens any contract in it |
| Certification.CompilingAdmits | crates/harness/src/admission.rs:82-237 | every run of compilations, each on the contract before it under one policy, is such a chain, with the whole profile at each step |
| Certification.FollowUpsRestoreTheProfile | crates/harness/src/admission.rs:159-237 | after an amendment the next compiled follow-up starts such a chain again: it brings the whole profile back |
| Certification.OnlyAmendmentsDrop | crates/harness/src/store.rs:1693-1718 | over the life of a task, nothing but an amendment takes a check away or changes it |
| Certification.AmendmentMayDrop | crates/harness/src/store.rs:1693-1718 | an amendment that drops a check, which the store would refuse as a follow-up |
| Certification.CertificateNamesItsContract | crates/harness/src/completion.rs:98-232 | a certificate carries evidence for exactly the checks of the contract it is on |
| Certification.CertificateCoversEveryProposedCheck | crates/harness/src/completion.rs:98-232 | end to end: a check proposed at any point in the life of a task is backed by current evidence in every later certificate, as it was proposed, unless the user amended it away |
| Certification.CertificateCoversEveryAdmittedCheck | crates/harness/src/completion.rs:98-232 | over any chain of follow-ups, a certificate on the last contract carries current evidence for every check of every contract in the chain, definitions unchanged |
| Certification.CertificateCoversTheProfile | crates/harness/src/completion.rs:98-232 | and every protected profile check passed with exit code zero |
| Output.AcceptFaithful | crates/executor/src/supervisor.rs:355-367 | emitting a chunk up to the budget keeps the emitted stream a prefix of what was written |
| Output.AcceptMore | crates/executor/src/supervisor.rs:355-367 | chunk by chunk, what is emitted is what the budget lets through of the whole |
| Output.Supervisor.Accept | crates/executor/src/supervisor.rs:355-362 | emits the part of a chunk within the budget and charges exactly that |
| Output.Supervisor.Drain | crates/executor/src/supervisor.rs:336-372 | emits what the budget lets through of everything read, ends exactly at end of file, a blocking read, a fault or the first chunk over budget, and misreports a loss exactly when it ends on a blocking read after the stop |
| Output.LostOverflow | crates/executor/src/supervisor.rs:368 | a drain after the stop that loses a byte and reports nothing lost |
| Output.Supervisor.Loop | crates/executor/src/supervisor.rs:167-202 | the outcome is that of the first tick with a cause, in the supervisor's order |
| Output.Supervisor.Supervise | crates/executor/src/supervisor.rs:164-239 | emitted plus remaining equals the budget throughout; the reported outcome is exact; `Exited` means both streams ended and nothing was dropped |
| Tree.Visit | crates/executor/src/supervisor.rs:500-555 | one node: succeeds iff it is acceptable and fits; appends exactly its listing |
| Tree.Walk | crates/executor/src/supervisor.rs:481-558 | a directory: succeeds iff everything below is acceptable and fits; appends exactly the pre-order listing |
| Tree.ListTree | crates/executor/src/supervisor.rs:475-480 | succeeds iff the tree can be listed within inode, byte and depth limits; the entries are distinct safe paths, parents first |
| Tree.ListingPreOrder | crates/executor/src/supervisor.rs:481-558 | every listing has distinct paths below its prefix, each after its parent directory |
| Tree.AncestorsFirst | crates/executor/src/supervisor.rs:481-558 | every ancestor of an entry is a directory listed before it |
| TreeCopy.CopyFiles | crates/executor/src/supervisor.rs:573-605 | in listing order every parent exists when needed; fails iff stopped or a file changed |
| TreeCopy.CopyLinks | crates/executor/src/supervisor.rs:606-612 | every link can be created once the folders exist |
| TreeCopy.SettleModes | crates/executor/src/supervisor.rs:613-621 | every folder's mode is set while the folders above it are still as created |
| TreeCopy.CopySource | crates/executor/src/supervisor.rs:567-621 | an undisturbed copy is exactly the listed tree with its modes |
| TreeCopy.CopyTree | crates/executor/src/supervisor.rs:567-621 | a tree is refused iff it cannot be listed within the limits; creating and settling never fail |
| TreeCopy.StreamFile | crates/executor/src/supervisor.rs:258-277 | a file is streamed iff it holds exactly its listed bytes, whatever short reads occur; the receiver gets its content |
| TreeCopy.Export | crates/executor/src/supervisor.rs:254-285 | the receiver reassembles every entry with its content in order, and COMPLETE counts exactly what was streamed |
| LineageRecords.SelectionBudget.AddBytes | crates/harness/src/import.rs:705-713 | under the validated limits the saturating sum refuses iff the true sum is over |
| LineageRecords.CheckRow | crates/harness/src/import.rs:475-545 | a row passes iff it is a bounded version-2 record, later than the one before and within the cutoff, that opens the session as its metadata says or names no parent |
| LineageRecords.ReadRow | crates/harness/src/import.rs:470-547 | row budget, row checks, byte budget |
| LineageRecords.Records | crates/harness/src/import.rs:454-568 | reads to the cutoff and reports the first fault, or the selected records and parent link |
| LineageRecords.NoFaultIff | crates/harness/src/import.rs:454-568 | a read succeeds iff its rows are acceptable, reach the cutoff and fit what is left of both budgets |
| LineageRecords.PrefixThroughCutoff | crates/harness/src/import.rs:464-567 | a read contributes exactly the session's prefix through its cutoff: all, none at zero, or up to that sequence |
| LineageRecords.ReadIgnoresAppended | crates/harness/src/import.rs:547-567 | rows appended behind a cutoff change nothing about the read |
| LineageExport.ReadStep | crates/harness/src/import.rs:358-371 | one session of the lineage looked up, read and charged, or the error the source gives |
| LineageExport.WalkToRoot | crates/harness/src/import.rs:345-388 | the walk returns the lineage, or a walk that is stuck for the reported reason |
| LineageExport.LineageUnique | crates/harness/src/import.rs:345-388 | a session has at most one lineage |
| LineageExport.StuckMeansNone | crates/harness/src/import.rs:345-388 | a session with a lineage never stops the walk: not for a cycle, depth, a missing ancestor, a bad record or a budget |
| LineageExport.Assemble | crates/harness/src/import.rs:389-400 | segments and records are laid out root first |
| LineageExport.SegmentsTile | crates/harness/src/import.rs:389-400 | segments tile the record list, each holding its own session's records |
| LineageExport.ExportIsRootToLeaf | crates/harness/src/import.rs:339-400 | an export is an acyclic root-to-leaf chain in which each segment names the one before as its parent, cut where it says |
| LineageExport.ZeroCutoffEmpties | crates/harness/src/import.rs:372-381 | a zero cutoff empties the ancestor and all of its ancestors |
| LineageExport.RecordsWithinBudget | crates/harness/src/import.rs:546-567 | the exported records number at most the rows charged |
| LineageExport.Export | crates/harness/src/import.rs:339-431 | succeeds iff the id is valid and the session has a lineage whose resume state reads, with that lineage's export; otherwise fails with exactly what stopped it |
| LineageExport.FailureIsExact | crates/harness/src/import.rs:339-431 | nothing that makes an export fail leaves a lineage that could be exported |
| LineageExport.AppendingChangesNothing | crates/harness/src/import.rs:339-431 | records appended to ancestors behind their cutoffs, and any change to other sessions, leave the export and its import id unchanged |
| Accounting.Ledger.constructor | crates/harness/src/auxiliary.rs:145-151 | an empty book |
| Accounting.Ledger.StartAt | crates/harness/src/auxiliary.rs:153-158 | the start is then no later than before or than the time given, and is one of the two |
| Accounting.Ledger.Apply | crates/harness/src/auxiliary.rs:174-218 | a record is applied in full or refused with nothing changed |
| Accounting.Ledger.Tokens | crates/harness/src/auxiliary.rs:160-164 | known iff every call's count is known and the sum fits 64 bits |
| Accounting.Ledger.HasPendingReceipt | crates/harness/src/auxiliary.rs:171-173 | true iff some call has no receipt |
| Accounting.StartIsMinimum | crates/harness/src/auxiliary.rs:139-158 | over every record sequence the start is the earliest accepted classification or run start |
| Accounting.RunStartsOnce | crates/harness/src/auxiliary.rs:178-201 | the run starts at most once, and no classification is accepted after it |
| Accounting.OneReceipt | crates/harness/src/auxiliary.rs:193-209 | an accepted receipt is kept for good and no other is accepted for its call |
| Accounting.OneIntent | crates/harness/src/auxiliary.rs:183-204 | a call is intended at most once |
| Accounting.CallsAreIntents | crates/harness/src/auxiliary.rs:174-218 | the calls are exactly those intended, and those with a receipt exactly those answered |
| Accounting.TokensAreReported | crates/harness/src/auxiliary.rs:160-218 | tokens are the sum over accepted receipts of the run, known iff every intended call has a known answer and the sum fits |
| CostEstimate.CollectPairs | crates/harness/src/context_cost.rs:102-127 | the nested loops collect exactly the comparable pairs |
| CostEstimate.Profile.EstimateFor | crates/harness/src/context_cost.rs:101-154 | an estimate exists iff there is a comparable pair and all agree; it is that pair's |
| CostEstimate.Profile.Select | crates/harness/src/context_cost.rs:192-195 | bitmap iff all comparable pairs agree and bitmap is strictly cheaper |
| CostEstimate.Profile.Recommend | crates/harness/src/context_cost.rs:156-190 | exact counts first, then receipts, and a measurement only while no bitmap was tried |
| CostEstimate.OrderIndependent | crates/harness/src/context_cost.rs:101-154 | any permutation of the observations has the same estimate and selection |
| CostEstimate.SelectionIsCheaper | crates/harness/src/context_cost.rs:132-154 | the estimate selects bitmap iff it is strictly cheaper, and savings are the difference |
| CostEstimate.DisagreementIsFinal | crates/harness/src/context_cost.rs:128-131 | once two comparable pairs disagree no later observation restores an estimate |
| CostEstimate.MeasuredOnce | crates/harness/src/context_cost.rs:156-190 | one bitmap tried or one exact count taken ends measuring for good |
| Interval.LatestDue | crates/harness/src/event_intake.rs:103-110 | every intermediate value fits 64 bits; the slot found is the newest not in the future |
| Interval.CatchUp | crates/harness/src/event_intake.rs:103-110 | counting slots one at a time gives the same answer |
| Interval.RefusedIff | crates/harness/src/event_intake.rs:103-110 | nothing is due iff the clock is before the next slot or the slot after the newest is not representable |
| Interval.ValidMeansFires | crates/harness/src/event_intake.rs:48-57 | an interval of at least a second is accepted iff its first slot can ever fire |
| Interval.CursorIsCovered | crates/harness/src/store/event_intake.rs:233-275 | over any clock the cursor is the first slot not covered: counts sum to the slots passed |
| Interval.FiringsAreSlots | crates/harness/src/store/event_intake.rs:233-275 | every firing is for `first` plus a whole number of intervals, never in the future |
| Interval.FiringsIncrease | crates/harness/src/store/event_intake.rs:233-275 | firings are strictly increasing whatever the clock does |
| Interval.CaughtUp | crates/harness/src/store/event_intake.rs:233-275 | after an idle reading every slot up to it is covered and, if it fired, none beyond |

## Left out

- ProjectionBytes.ProjectionFits: assumes a history of fewer than 2^62 items, more than an address space holds; byte sums are exact and their saturation at `usize::MAX` is not modelled.
- ProjectionRewrite.AppendOnlyIff: the `only if` half assumes that no history item states the digest of a prefix of the history that contains it; `ProjectionRewrite.ImitationHides` shows what happens otherwise.
- LineageExport.Export: reading and decoding the resume state is a parameter that may fail; deadlines are not modelled, nor is the snapshot id copied into the export.
- LineageRecords.Records: a row length beyond 32 bits, which SQLite's own length limit rules out, is not a separate error.
- Output.Supervisor.Supervise: failures to write to the host, and Linux process control, are not modelled; the per-path quota checks are one flag.
- Tree.Walk: a path is its list of components, a name that is not UTF-8 makes its directory unreadable as a whole, and failing system calls are not modelled.
- TreeCopy.CopySource: ownership changes, the mode of the workspace root and file contents are not modelled; the number of bytes copied is.
- ReviewSearch.SearchReview: the original works a match out when it meets the target, the model once the target's result is known; lines are those a browser can index.
- Bitmap.PaintRow: the flat pixel buffer is a two-dimensional array of rows, so an index past a row is an error here.
- Completion.Evaluate: findings are a sequence, in the order of the original's map; description texts are not carried.
- The window-token limits and the pass-through of transitions in `project`: easy members.
- JSON parsing and encoding beyond lengths, SHA-256, base64, zstd, PNG compression and SQLite: foreign libraries, taken as parameters or values.
- `sessions`, `metadata`, schema inventory and publication in the import: validators and plumbing.
- Admission.Amend: the store's revision check, artifact budget and event log around it are not modelled, as for every accepted contract.
- Git patch delivery, the rest of the store, the controller and the workspace: they rest on processes outside this model.
- The review user interface beyond search and navigation.
