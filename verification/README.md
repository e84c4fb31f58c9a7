# Shell and file tools: a verified model

This project models the stateful core of the remote shell plugin and its worker, and proves what
that core promises. Each module follows one component. Code that updates fields in place is a class
whose methods are proved against a specification function or an invariant; code that computes
values is functions and lemmas. Protocols between several parties are state machines over their
steps, with runs of any length.

`dafny verify dfyconfig.toml` checks everything.

## What is modelled

**File authority.** The file engine decides which lines of which exact file version were seen and
may be edited. `TextLines` is line splitting with every terminator the tool knows, CRLF included.
`Edits`, `BatchEdit` and `Splicing` are the batch replacement: overlapping search, the heap sweep for
conflicts, the splice. `EditAuthority` moves read authority across an edit, and `EditCredit` follows it
from the grant an edit was planned on to the grant its delivery leaves. `Delivery`,
`FileAuthority`, `Paging` and `SessionState` are the manifests that travel with results, their
slicing at any offset, and the grants computed from them. `ReadRendering` produces the text and the
spans of a read.

The central results are exact. After any deliveries of any files, a line of a file version is
covered if and only if a lease held before covers it or the pages of all reads of that version
together, with what was shown before, show every character of a rendering of it in results still
visible (`Paging.CoveredIff`, `Paging.CoveredIffDelivered`, `Paging.CoveredBeforeOrCompleted`); what
this asks of the deliveries (`Paging.Orderly`) is that those of the version itself come from reads and
that no result id serves two versions.

A version made by an edit is the other case. While the result of the edit is all that was delivered for
it, and however that result is cut and delivered, every line of it that may be edited shows only
replacement text and text of lines that could be edited before, provided the line before each leaky
edge could be edited (`EditCredit.EditKeepsAuthority`); once the whole patch was shown this is also
necessary (`EditCredit.EditKeepsAuthorityIff`). Then, while the results it was built on stay visible,
every line that could be edited before can be edited where it moved to, and the lines that may be edited
are known exactly (`EditCredit.EditCarriesAuthority`, `EditCredit.EditCoversExactly`). An applied batch is
the simultaneous substitution of the matches that neither failed nor overlapped, whatever the order of
the edits, and each edit meets the same fate in any order (`BatchEdit.ApplyEdits`,
`BatchEdit.OrderIrrelevant`).

**Synchronization.** `FileRegistry` is the worker's half, `RemoteScope` what the host's half computes,
`SyncProtocol` both of them over a network that loses, delays, duplicates and reorders, and `HostScope`
the host's object, whose methods are steps of that protocol. `HostContext` says what the host's context
is in terms of the steps taken alone (`HostContext.ContextIs`). The worker always mirrors some revision
of the host, so it lets exactly those lines be edited that the results listed there cover
(`SyncProtocol.CoveredByListed`), and the verdict on every honest synchronization is known exactly
(`SyncProtocol.HonestSync`).

**Remote operations.** `Lifecycle` is the transition table, `OperationGate` says what every call does
to one operation id, and `ExecutionGate` is the object itself. `OperationLaws` says where each call leads
in terms of what a record shows, without the table (`OperationLaws.CallLeads`), and from that what
holds over whole runs: an end that is reported is taken, and an output that waits for delivery is kept
until it is let go (`OperationLaws.EndIsTaken`, `OperationLaws.KeptUntilLetGo`). `EpochFence` and `Router` decide which
results the router may adopt, and over every run of the router a session that was let go never comes
back, what is known of a session never goes back and a retired runtime never answers.
`ManagementJournal` puts the root helpers, their journal and the worker's single-use permission into
one state machine: in every run the child is started at most once (`ManagementJournal.StartedOnce`).

**Native runtime and transport.** `SessionRuntime`, `SessionClock` and `OutputCapture` are the reactor:
one reply per request, bounded retention, wake-ups and bounded capture. `Framing` and `RpcChannel` are
the length-prefixed connection. `Admission` is the permit queue, `BlobStore` and `FileTransfer` are the
worker's transfer store and the host's chunked transfers.

## Where a promise needs a condition

Some promises do not hold of the code as it stands for all inputs. The model keeps the code, shows
an input for which the promise fails, and states when it holds.

- After an edit, the lines credited as standalone can include an unread line: when the tail of the
  file is removed (`EditAuthority.TailRemovalLeaks`) and when a line feed lands behind a bare carriage
  return (`EditAuthority.FusedTerminatorLeaks`). `EditAuthority.StandaloneSoundExactly` is the exact
  condition on the file and the patches. Through the grants of both versions it becomes: nothing that
  was not covered before is covered after, exactly when the line before every such edge had been
  covered (`EditCredit.EditKeepsAuthorityIff`).
- A host that commits the same result id a second time after retiring it is refused
  (`SyncProtocol.ReusedResultRefused`). `SyncProtocol.HonestSync` says exactly when, and
  `SyncProtocol.FreshCommitsExactly` which commits keep ids used once.
- A claim for an epoch that is not the current one is accepted and is neither unknown nor able to
  progress (`OperationGate.ForeignClaimExample`, `OperationGate.ForeignUnknownExactly`).
- A report that a runtime changed is ignored while another epoch is believed current
  (`EpochFence.ReportIgnored`, `EpochFence.ReportRetires`).
- The helper treats all input as untrusted, the worker included. The journal alone keeps the child from
  being started twice as long as no helper takes the lock after the record may have been pruned
  (`ManagementJournal.StartedOnceByJournal`). Whenever one does, it reserves the grant again
  (`ManagementJournal.LateLockReserves`): an untrusted answer then starts a second child
  (`ManagementJournal.LateLockStartsAgain`), and the worker's own refusal leaves a record that the child
  was never started (`ManagementJournal.LateLockForgets`).
- The registry runs an operation again exactly when its run staged no delivery
  (`FileRegistry.RunsAgainIff`, `FileRegistry.RunsTwice`).
- A frame of at most eight bytes without a marker is sent but closes the receiver, and nothing after it
  arrives (`Framing.ShortFrameEndsStream`). `RpcChannel.EndToEnd` says exactly what arrives.
- An answer that names no session, comes through a control and says more than was known is not kept.
  Every other answer is advanced by all later ones (`Router.AnswersAdvance`), and after this one an older
  one can always follow (`Router.ForgottenGoesBack`, reached in `Router.UnnamedMayGoBack`). The worker
  here leaves the session out only in the reply to the request that started it, when it has already
  ended (runtime.cpp:202-205), and never in the reply to a control, so only a worker other than this
  one brings the router there.
- A session runs for exactly its budget if and only if the end of the budget is on the 64-bit clock
  (`SessionClock.RunsForItsBudget`); one that ends past it can be over as soon
  as it starts (`SessionClock.BudgetPastTheClock`).
- Retiring a file result loses its receipt when the summary does not fit
  (`BlobStore.Store.RetireResult`, `BlobStore.LongerSummaryLost`).
- A chunk that straddles the end of what an upload already received is refused as a conflict although
  it is part of the same file (`BlobStore.RepeatAccepted`, `BlobStore.LongerRepeatRefused`).
- A request id whose leading bytes spell a marker of the older protocol is not recognised in the reply
  (`Framing.EnvelopeRoundTrip`, `Framing.MarkerIdIsLost`).

## Assumptions

Digests are injective, so a digest is represented by what it identifies. Signatures are a given truth
value. Random identifiers are fresh. File operations, locks and fsync are atomic steps. The clock,
process exit, bytes arriving, timers firing and sockets accepting bytes are inputs.

## Model

| member | source | states |
|---|---|---|
| `TextLines.LineFacts` | python/pal_shell_worker/_file_core/file_state.py:223-231 | a line start is offset 0 or a break, the line runs to the next break, and counting breaks before an offset numbers the lines the way splitting does, with CRLF as one terminator |
| `TextLines.CountLines` | python/pal_shell_worker/_file_core/file_state.py:223-247 | splitting yields as many lines as the counting definition, and as many starts |
| `TextLines.InLine` | python/pal_shell_worker/_file_core/file_state.py:234-247 | an offset belongs to line k exactly when it lies between the start and the end of line k |
| `TextLines.TextLineStarts` | python/pal_shell_worker/_file_core/file_state.py:223-231 | the running-cursor loop returns exactly the starts of the lines |
| `TextLines.LineNumberAtOffset` | python/pal_shell_worker/_file_core/file_state.py:234-247 | the scan agrees with counting line breaks, for every offset, including negative ones and those past the end |
| `TextLines.LastAffectedLine` | python/pal_shell_worker/_file_core/file_state.py:265-276 | an interval that ends on a terminator affects the following line too: the answer is the line of its end point |
| `TextLines.LineRangeForOffsets` | python/pal_shell_worker/_file_core/file_state.py:250-277 | the affected lines are those of the clamped start and of the clamped end point |
| `Ranges.MergeFacts` | python/pal_shell_worker/_file_core/file_edit.py:418-431 | merging keeps exactly the covered integers and yields sorted, separated, nonempty ranges |
| `Ranges.CanonicalUnique` | python/pal_shell_worker/_file_core/file_edit.py:418-431 | two merged lists that cover the same integers are equal, so merging forgets order and grouping |
| `Ranges.MergeLinesFacts` | python/pal_shell_worker/_file_core/session_state.py:942-954 | with the clamping to line 1 the merged ranges are canonical and one-based, and equal in coverage for one-based input |
| `Ranges.MergeRanges` | python/pal_shell_worker/_file_core/file_edit.py:418-431 | the loop over the sorted pairs computes the normal form |
| `Ranges.HoldsRunIsEveryLine` | python/pal_shell_worker/_file_core/file_state.py:290-298 | on merged ranges, one range holding the request is the same as every single line being covered |
| `Ranges.SubtractFromOne` | python/pal_shell_worker/_file_core/file_edit.py:404-414 | what is left of one range is exactly its integers that no removed range covers |
| `Ranges.SubtractLineRanges` | python/pal_shell_worker/_file_core/file_edit.py:398-415 | the difference covers a line exactly when a source covers it and no removal does |
| `Splicing.ApplyReplacements` | python/pal_shell_worker/_file_core/file_edit.py:141-146 | the chunk loop produces the splice of the sorted, disjoint patches |
| `Splicing.SpliceIsSubstitution` | python/pal_shell_worker/_file_core/file_edit.py:141-146 | splicing in order is simultaneous substitution of the set of patches, which does not mention order |
| `Splicing.KeptAt` | python/pal_shell_worker/_file_core/file_edit.py:141-146 | every character between the patches appears in the new text at its offset plus the growth of the patches before it |
| `Splicing.FreshAt` | python/pal_shell_worker/_file_core/file_edit.py:141-146 | every character of a replacement appears in the new text at the shifted start of its patch |
| `Splicing.Locate` | python/pal_shell_worker/_file_core/file_edit.py:141-146 | every character of the new text is a kept character of one gap or a character of one replacement |
| `Edits.MatchOffsets` | python/pal_shell_worker/_file_core/file_edit.py:335-344 | the search returns all occurrences, overlapping ones included, in increasing order and each once |
| `Edits.CloseEnded` | python/pal_shell_worker/_file_core/file_edit.py:275-279 | popping the heap leaves the intervals still open at the new start, and the owner counters follow |
| `Edits.OverlappingEdits` | python/pal_shell_worker/_file_core/file_edit.py:272-285 | the heap sweep reports two edits (or one edit with itself) exactly when two of their matches overlap |
| `BatchEdit.PlanExactEdit` | python/pal_shell_worker/_file_core/file_edit.py:303-332 | the refusal of one edit, in the order of the checks, or all of its matches |
| `BatchEdit.CollectMatches` | python/pal_shell_worker/_file_core/file_edit.py:123-133 | all edits are planned against the same pre-image, with exactly the refused ones recorded as failures |
| `BatchEdit.SelectMatches` | python/pal_shell_worker/_file_core/file_edit.py:123-138 | the matches that survive are pairwise disjoint and are those of the edits that neither failed nor overlapped |
| `BatchEdit.ApplyEdits` | python/pal_shell_worker/_file_core/file_edit.py:123-151 | the new text is the simultaneous substitution of the surviving matches; an edit fails exactly when refused, overlapping or part of a batch that changes nothing, each with its reason |
| `BatchEdit.OrderIrrelevant` | python/pal_shell_worker/_file_core/file_edit.py:123-146 | any reordering of the edit list leaves the surviving matches and the new text the same, and an edit survives or fails for the same reason wherever it stands |
| `BatchEdit.SurvivorCovered` | python/pal_shell_worker/_file_core/file_edit.py:327-331 | every applied match lies in lines covered when it was planned |
| `BatchEdit.AffectedWasRead` | python/pal_shell_worker/_file_core/file_edit.py:319-332 | every line an applied batch affects was covered |
| `BatchEdit.RefusedIffUnread` | python/pal_shell_worker/_file_core/file_edit.py:319-332 | an edit that could be applied with the whole file in view is refused exactly when one of its matches touches a line that was not read |
| `BatchEdit.OneEdit` | python/pal_shell_worker/_file_core/file_edit.py:123-151 | a text that stands in exactly one place of a file in view is replaced there and nothing else changes, whatever stands around it |
| `BatchEdit.NowhereRefused` | python/pal_shell_worker/_file_core/file_edit.py:303-317 | a text that stands nowhere is refused as not found |
| `EditAuthority.StandaloneSoundIff` | python/pal_shell_worker/_file_core/file_edit.py:364-377 | standalone post-edit lines hold only replacement text and required lines exactly when each patch starts the text, follows an authorized character, or starts a line of the new text |
| `EditAuthority.EdgeSafeIff` | python/pal_shell_worker/_file_core/file_edit.py:364-377 | a patch has an unsafe left edge exactly when the kept character before it ends a line no patch affects and the new text ends there or a carriage return meets a line feed |
| `EditAuthority.StandaloneSoundExactly` | python/pal_shell_worker/_file_core/file_edit.py:319-332 | standalone lines never contain a line the plan did not require exactly when no patch has such an edge |
| `EditAuthority.LeakSource` | python/pal_shell_worker/_file_core/file_edit.py:364-377 | every unrequired character on a standalone line comes from the one line that stands before some leaky edge |
| `EditAuthority.TailRemovalLeaks` | python/pal_shell_worker/_file_core/file_edit.py:364-377 | removing the last line credits the line before it, which nobody had to read |
| `EditAuthority.FusedTerminatorLeaks` | python/pal_shell_worker/_file_core/file_edit.py:364-377 | a line feed put after a bare carriage return credits the line before it |
| `EditAuthority.MovedLine` | python/pal_shell_worker/_file_core/file_edit.py:379-394 | an unaffected line is copied whole, with the character before it, at the distance the tool computes |
| `EditAuthority.InheritedLineText` | python/pal_shell_worker/_file_core/file_edit.py:379-394 | the line an unaffected line moves to has the same text without its terminator |
| `EditAuthority.NewLineRun` | python/pal_shell_worker/_file_core/file_edit.py:381-394 | a run of unaffected lines moves to a run of lines of the same length, so moving its first line is enough |
| `EditAuthority.AffectedRanges` | python/pal_shell_worker/_file_core/file_edit.py:364-367 | the ranges cover exactly the pre-image lines some patch affects |
| `EditAuthority.StandaloneRanges` | python/pal_shell_worker/_file_core/file_edit.py:368-377 | the running delta places every patch, and the ranges cover exactly the lines around the placed patches |
| `EditAuthority.SumShifts` | python/pal_shell_worker/_file_core/file_edit.py:388-390 | the summed shift of an offset |
| `EditAuthority.InheritedRanges` | python/pal_shell_worker/_file_core/file_edit.py:379-394 | the ranges cover exactly the lines that covered, unaffected lines moved to |
| `EditAuthority.PostEditAuthority` | python/pal_shell_worker/_file_core/file_edit.py:355-395 | for any covered ranges, also past the end of the file, both results are canonical; the first covers exactly the standalone lines, the second, among the lines of the new text, exactly those the carried lines moved to |
| `EditAuthority.LastStaysLast` | python/pal_shell_worker/_file_core/file_edit.py:380-392 | a last line no patch affects stays the last line, so what a range claims past the end stays past the end |
| `EditAuthority.InheritedWasRead` | python/pal_shell_worker/_file_core/file_edit.py:355-415 | every inherited line shows the text of a covered line of the pre-image that no replacement affected |
| `EditCredit.ReadableIff` | python/pal_shell_worker/_file_core/file_edit.py:215-219 | the lines credit is inherited from are exactly the lines of the pre-image the grant covers, also when the whole file was seen |
| `EditCredit.AffectedWasCovered` | python/pal_shell_worker/_file_core/file_edit.py:319-332 | every line an applied batch affects could be edited by the grant it was planned on, also when the whole file was seen |
| `EditCredit.InheritedIsKnown` | python/pal_shell_worker/_file_core/file_edit.py:379-394 | each character of an inherited line is replacement text or was kept from a line covered before, a line feed that its carriage return meets included |
| `EditCredit.StandaloneIsKnown` | python/pal_shell_worker/_file_core/file_edit.py:364-377 | the same of standalone lines when the line before each leaky edge had been covered |
| `EditCredit.EditFile` | python/pal_shell_worker/_file_core/file_edit.py:123-243 | the call applies the surviving matches or nothing; its manifest names the new version, its line count and whether it is empty, is marked as an edit of the version the grant was for with exactly the contributors of the grant as parents, and claims exactly the standalone and the inherited lines of the new text |
| `EditCredit.DeliveredWithin` | python/pal_shell_worker/_file_core/session_state.py:795-871 | however the result of an edit is cut, repeated, spread over result ids and mixed with other deliveries, no lease of the new version claims more than the manifest |
| `EditCredit.WholeEditHolds` | python/pal_shell_worker/_file_core/session_state.py:795-871 | once the whole patch was shown, its result covers every standalone line and keeps covering it |
| `EditCredit.EditKeepsAuthority` | python/pal_shell_worker/_file_core/file_edit.py:205-243 | while the result of the edit is all that was delivered for the new version, each line of it that may be edited shows only replacement text and what could be edited before, when this is true of the line before each leaky edge |
| `EditCredit.EditKeepsAuthorityIff` | python/pal_shell_worker/_file_core/file_edit.py:205-243 | and once the whole patch was shown, exactly then |
| `EditCredit.EditCarriesAuthority` | python/pal_shell_worker/_file_core/file_edit.py:205-243 | the other direction: once the whole patch was shown, a line that could be edited and was not affected can be edited where it moved to, while the results it came from stay visible |
| `EditCredit.EditCoversExactly` | python/pal_shell_worker/_file_core/file_edit.py:205-243 | so the lines of the new version that may be edited are exactly the standalone ones and those that covered lines moved to |
| `Delivery.SelectSpans` | python/pal_shell_worker/_file_core/session_state.py:159-183 | the loop keeps the touched spans, cut to the slice |
| `Delivery.SliceCompose` | python/pal_shell_worker/_file_core/session_state.py:158-209 | slicing a slice is one slice at the combined offsets, including when nothing is left |
| `Delivery.SliceIsValidProof` | python/pal_shell_worker/_file_core/session_state.py:158-209 | every slice of a well-formed manifest passes the worker's proof check |
| `Delivery.CutStands` | python/pal_shell_worker/_file_core/session_state.py:159-183 | each span a slice keeps is a nonempty part of one span of the whole, at the place of the slice where it stood |
| `Delivery.SliceWellFormed` | python/pal_shell_worker/_file_core/session_state.py:158-209 | a slice of a well-formed manifest is well-formed |
| `Delivery.ValidProofTransitive` | python/pal_shell_worker/_file_core/file_registry.py:42-60 | the proof check composes over any number of cuts |
| `FileAuthority.CompleteIffWhollyShown` | python/pal_shell_worker/_file_core/session_state.py:957-974 | a group of fragments is complete exactly when every single character of the line's rendering was shown |
| `FileAuthority.CompletedIff` | python/pal_shell_worker/_file_core/session_state.py:957-974 | a line counts as completed exactly when one rendering of it is shown character for character |
| `FileAuthority.KeysInOrder` | python/pal_shell_worker/_file_core/session_state.py:957-974 | the groups of fragments come by line and length, each once |
| `FileAuthority.MergedShowsSame` | python/pal_shell_worker/_file_core/session_state.py:957-991 | joining fragments neither adds nor loses a shown character |
| `FileAuthority.ApplyStandalone` | python/pal_shell_worker/_file_core/session_state.py:795-871 | what the whole-line ranges of a result cover after a delivery |
| `FileAuthority.FlagsStay` | python/pal_shell_worker/_file_core/session_state.py:795-871 | a result counts as complete or as of an empty file exactly when this delivery or an earlier one of the same version said so, and a complete one covers every line |
| `FileAuthority.InheritedNeedsParents` | python/pal_shell_worker/_file_core/session_state.py:525-545 | a line that a result did not show itself is passed on only while every result it was built on is visible and of the same file, one of them of the version it was made from |
| `FileAuthority.LeaseMonotone` | python/pal_shell_worker/_file_core/session_state.py:525-545 | a result covers no more lines when fewer results are visible or leases are weaker, inheritance through parents included |
| `FileAuthority.GrantMonotone` | python/pal_shell_worker/_file_core/session_state.py:498-563 | for a fixed file version, hiding or retiring results or weakening their proofs never adds a covered line |
| `FileAuthority.OnlyVisibleCount` | python/pal_shell_worker/_file_core/session_state.py:498-563 | what may be edited is decided by exactly the visible results: the grant is the one of a session that holds nothing else |
| `FileAuthority.ValidProofBelow` | python/pal_shell_worker/_file_core/file_registry.py:42-60 | a delivery that passes the check leaves a lease no stronger than the staged manifest would |
| `FileAuthority.AcceptedProofNeverGrows` | python/pal_shell_worker/_file_core/file_registry.py:42-60 | accepting a checked delivery, among any other results, covers only lines the staged manifest would have covered |
| `Paging.CoveredIffDelivered` | python/pal_shell_worker/_file_core/session_state.py:498-563 | whatever other files and versions were delivered, with no lease of the version to begin with a line is covered exactly when the pages of all its reads together show every character of a rendering in results still visible |
| `Paging.CoveredIff` | python/pal_shell_worker/_file_core/session_state.py:498-563 | from any leases, after any deliveries among which those of the version come from reads and no result id serves two versions, a line of the version is covered exactly when a lease held at the start covers it or all its characters were shown before or since |
| `Paging.CoveredBeforeOrCompleted` | python/pal_shell_worker/_file_core/session_state.py:498-563 | as long as no delivery brings back a parent of an edit, a line is covered exactly when it was before or was completed together with what was shown before |
| `Paging.PagingIrrelevant` | python/pal_shell_worker/_file_core/session_state.py:158-209 | how the reads of a version are chosen, cut, ordered, repeated, spread over results and mixed with other deliveries makes no difference to what is covered, only which characters were shown |
| `Paging.TiledPagesCoverAll` | python/pal_shell_worker/_file_core/session_state.py:795-871 | when every read of the version was delivered without a gap, exactly the lines they rendered are covered |
| `Paging.TiledReadIsCovered` | python/pal_shell_worker/_file_core/session_state.py:795-871 | a read delivered without a gap covers its lines, whatever else was held or delivered |
| `Paging.NamedOnly` | python/pal_shell_worker/_file_core/session_state.py:482-496 | no delivery, however cut, leaves a lease that does not name both its file and the version |
| `SessionState.GroupFragments` | python/pal_shell_worker/_file_core/session_state.py:957-967 | the dictionary holds, per line and length, the clipped fragments in order |
| `SessionState.MergeLineFragments` | python/pal_shell_worker/_file_core/session_state.py:957-991 | the two loops compute the joined fragments and the completed lines |
| `SessionState.Session.RecordDelivery` | python/pal_shell_worker/_file_core/session_state.py:482-496 | a retired session refuses and a manifest without a file version changes nothing; any other one extends or replaces the lease of its result and, unless it is a read of a version an edit has replaced, is what the session remembers of the file |
| `SessionState.ShownWholeIff` | python/pal_shell_worker/_file_core/session_state.py:880-890 | a delivery counts as complete exactly when each single line of the file is covered by its result, or it says so itself |
| `SessionState.Session.BeginInput` | python/pal_shell_worker/_file_core/session_state.py:456-480 | a new input is a new turn, a repeated one is not, and exactly the snapshots past their retention are forgotten |
| `SessionState.Session.FileSnapshot` | python/pal_shell_worker/_file_core/session_state.py:565-583 | a snapshot is given out only while it is retained and, if a version is named, only of that version |
| `SessionState.RecalledExactly` | python/pal_shell_worker/_file_core/session_state.py:456-583 | over any events, what a delivery said of a file is recalled exactly during the turns that were to be kept when it came, until something newer is said of the file |
| `SessionState.JoinLeases` | python/pal_shell_worker/_file_core/session_state.py:524-545 | the loop over the selected leases gathers exactly their ranges, with inheritance only through intact parents, and exactly their fragments |
| `SessionState.Contributors` | python/pal_shell_worker/_file_core/session_state.py:523-545 | the result ids of a grant are exactly the selected results and the intact parents they inherit through, and its line count is their largest |
| `SessionState.FindNewest` | python/pal_shell_worker/_file_core/session_state.py:512-521 | the loop finds the one visible result of the file that no other comes after by turn and id, or there is none |
| `SessionState.NewestIsLatest` | python/pal_shell_worker/_file_core/session_state.py:512-521 | the result chosen was delivered in no earlier turn than any other visible one of the file, and is the last of that turn by id |
| `SessionState.PrecedesIff` | python/pal_shell_worker/_file_core/session_state.py:512-521 | results of the same turn are ordered by id as in a dictionary: the first difference decides, and a beginning comes first |
| `SessionState.GrantFor` | python/pal_shell_worker/_file_core/session_state.py:522-563 | for one version the ranges are canonical, cover exactly what the selected results allow and show exactly what they show, with their emptiness, contributors and line count |
| `SessionState.Session.FileGrant` | python/pal_shell_worker/_file_core/session_state.py:498-563 | the grant is for the version named, or for that of the most recent visible result, and covers exactly the lines the selected results allow alone or together; no grant means no line |
| `ReadRendering.RenderLines` | python/pal_shell_worker/_file_core/file_read.py:421-455 | the running cursor gives every line of a block one span, in order and adjacent, that selects exactly its number, a tab and its text without its ending, each line adjoining the next but for that ending |
| `ReadRendering.RenderedShows` | python/pal_shell_worker/_file_core/file_read.py:421-455 | a rendering is the decimal number of the line, a tab and the text of the line with just its ending left out, whichever of the terminators that is |
| `ReadRendering.RenderBlock` | python/pal_shell_worker/_file_core/file_read.py:408-470 | a block that is not skipped shows all of its lines in order behind what was there, touches no earlier span, and adds nothing behind the last line of the file |
| `ReadRendering.Render` | python/pal_shell_worker/_file_core/file_read.py:397-480 | for every notice, header, skipped block, overlap and line ending, each span selects exactly its line's number and text, the lines with spans are exactly those of the blocks not skipped, and each such block shows its lines from the first to the last without a gap, the blocks one after the other |
| `ReadRendering.RenderedIsReadManifest` | python/pal_shell_worker/_file_core/file_read.py:444-454 | a rendered read has one whole single-line span per rendering, and its manifest is well-formed |
| `ReadRendering.ReadsCreditTheirLines` | python/pal_shell_worker/_file_core/file_read.py:397-480 | any number of reads of a version, each delivered whole in any pages among other deliveries, cover exactly the lines they were asked for |
| `FileRegistry.CheckItems` | python/pal_shell_worker/_file_core/file_registry.py:98-116 | no verdict exactly when every live item passes, otherwise the verdict of one that does not |
| `FileRegistry.Registry.Open` | python/pal_shell_worker/_file_core/file_registry.py:69-76 | an unusable name or a full table opens nothing; a new scope is empty |
| `FileRegistry.Registry.Sync` | python/pal_shell_worker/_file_core/file_registry.py:78-127 | one synchronization step of the named scope and of no other; after a newer revision is accepted the scope sees exactly the results the host lists, or all results when it sends no list |
| `FileRegistry.Registry.Execute` | python/pal_shell_worker/_file_core/file_registry.py:129-168 | an operation runs only in the current revision of an open scope and while it is neither staged nor dropped, and its delivery, if it has one, is staged |
| `FileRegistry.RunsAgainIff` | python/pal_shell_worker/_file_core/file_registry.py:136-167 | the registry runs the same operation again exactly when its run staged no delivery |
| `FileRegistry.RunsTwice` | python/pal_shell_worker/_file_core/file_registry.py:153-167 | a reachable scope in which an operation without a delivery runs and can run again |
| `FileRegistry.StagedNeverRuns` | python/pal_shell_worker/_file_core/file_registry.py:136-137 | in every run of a scope an operation that staged a delivery is refused from then on, also after it was dropped |
| `FileRegistry.SyncKeeps` | python/pal_shell_worker/_file_core/file_registry.py:78-127 | a synchronization keeps the scope's invariant; unless it accepts a newer revision it changes nothing |
| `FileRegistry.ExecuteKeeps` | python/pal_shell_worker/_file_core/file_registry.py:129-137 | an execution keeps the invariant and the revision; a refused one changes nothing |
| `FileRegistry.RunKeeps` | python/pal_shell_worker/_file_core/file_registry.py:78-168 | in every run, retired ids are disjoint from staged and live ones, every live result is proven by a staged manifest, and a closed scope is empty |
| `FileRegistry.RunForward` | python/pal_shell_worker/_file_core/file_registry.py:117-127 | over any stretch of a run, revisions and both tombstone sets only grow, nothing leaves without a tombstone, staged manifests do not change |
| `FileRegistry.NeverResurrected` | python/pal_shell_worker/_file_core/file_registry.py:103-121 | a result or an operation that left a scope never returns to it |
| `FileRegistry.ClosedForGood` | python/pal_shell_worker/_file_core/file_registry.py:94-95 | a closed scope holds nothing and never changes again |
| `FileRegistry.GrantWithinStaged` | python/pal_shell_worker/_file_core/file_registry.py:96-125 | in every run, what the host's deliveries grant is within what the worker's own staged manifests would grant |
| `HostScope.Scope.Begin` | pal_plugin/pal_shell_native/files.py:255-258 | an announced operation joins the pending list under a new revision; with an unused id that is the protocol step of announcing |
| `HostScope.Scope.Commit` | pal_plugin/pal_shell_native/files.py:319-336 | a commit moves a pending operation to a live result under a new revision, which is the protocol step of committing given the worker's receipt; a repetition, a changed identity, a retired operation or a closed scope changes nothing |
| `HostScope.Scope.Discard` | pal_plugin/pal_shell_native/files.py:368-375 | a pending operation is dropped by the protocol step of discarding, any other id changes nothing |
| `HostScope.Scope.Retire` | pal_plugin/pal_shell_native/files.py:377-386 | all named live results leave in one protocol step; naming only unknown ones changes nothing |
| `HostScope.Scope.Close` | pal_plugin/pal_shell_native/files.py:388-393 | closing empties the scope once, by the protocol step of closing |
| `HostScope.Scope.SetVisible` | pal_plugin/pal_shell_native/files.py:105-110 | a changed projection is one protocol step, an unchanged one changes nothing |
| `HostScope.Scope.Confirm` | pal_plugin/pal_shell_native/files.py:176-179 | confirming is the protocol step of taking the acknowledgement, and if the confirmed revision is still the current one the worker holds this very context in every reachable state |
| `HostContext.ContextIs` | pal_plugin/pal_shell_native/files.py:203-393 | in every run the host's context is what was announced and not settled, committed and not taken back, and last said to be visible, and the revision counts the changes |
| `SyncProtocol.HostStepKeeps` | pal_plugin/pal_shell_native/files.py:203-393 | every host change keeps the protocol invariant |
| `SyncProtocol.DeliverSyncKeeps` | python/pal_shell_worker/_file_core/file_registry.py:78-127 | every delivery of a synchronization, however late or repeated, keeps it |
| `SyncProtocol.DeliverExecKeeps` | python/pal_shell_worker/_file_core/file_registry.py:129-167 | every delivery of an execution request keeps it |
| `SyncProtocol.ReachableInv` | pal_plugin/pal_shell_native/files.py:166-393 | the protocol invariant holds in every state of every run |
| `SyncProtocol.WorkerMirrorsHost` | pal_plugin/pal_shell_native/files.py:166-181 | the worker's revision never exceeds the host's, and the worker's context is the host's at that revision: the same live results, the same visible ones, and closed alike |
| `SyncProtocol.CoveredByListed` | python/pal_shell_worker/_file_core/file_registry.py:78-127 | in every reachable state the worker lets a line be edited exactly when the live results that the host's context at that revision lists as visible cover it |
| `SyncProtocol.ConfirmedMeansEqual` | pal_plugin/pal_shell_native/files.py:170-179 | once the current revision is confirmed both sides hold the same context |
| `SyncProtocol.ExecutedInSentContext` | pal_plugin/pal_shell_native/files.py:262-278 | an operation runs only under the context its host had when it sent it, never in a closed one |
| `SyncProtocol.ReceiptOnce` | python/pal_shell_worker/_file_core/file_registry.py:129-168 | in every run over the lossy network an operation has at most one receipt |
| `SyncProtocol.RunsOnceWithDelivery` | python/pal_shell_worker/_file_core/file_registry.py:136-167 | in every run an operation that staged a delivery is never run again, however often its message arrives |
| `SyncProtocol.HonestSync` | python/pal_shell_worker/_file_core/file_registry.py:78-119 | the exact verdict on every synchronization the host ever sent: stale, closed, accepted, or refused for a reused result id, each if and only if |
| `SyncProtocol.NeverConflicting` | python/pal_shell_worker/_file_core/file_registry.py:87-119 | with result ids used once, a host's synchronization is accepted, stale or refused because the scope is closed, and nothing else |
| `SyncProtocol.FreshCommitsExactly` | pal_plugin/pal_shell_native/files.py:319-336 | result ids stay used once exactly as long as each commit takes an id that was never live |
| `SyncProtocol.ReusedResultRefused` | python/pal_shell_worker/_file_core/file_registry.py:103-104 | a host that commits a retired result id again is refused, with no message lost |
| `SyncProtocol.CatchUp` | pal_plugin/pal_shell_native/files.py:166-181 | from any reachable state, one delivered synchronization and its answer bring an open scope up to date |
| `Lifecycle.NextPhaseValid` | pal_plugin/pal_shell_contracts/_remote_transitions.py:11-484 | no event leads out of the phases of its kind |
| `Lifecycle.NextPhaseForward` | pal_plugin/pal_shell_contracts/_remote_transitions.py:11-484 | no event makes an operation absent again or revives a retired one |
| `Lifecycle.SignedForGood` | pal_plugin/pal_shell_contracts/_remote_transitions.py:11-484 | a signature is never undone, and leaving the unsigned phases is signing or retiring |
| `Lifecycle.StoredPhase` | pal_plugin/pal_shell_contracts/remote_lifecycle.py:34-48 | reading a stored record gives back the stored phase, for every phase of its kind, and storing touches no other field |
| `OperationGate.NextViewFacts` | pal_plugin/pal_shell_remote/execution_gate.py:15-182 | every call keeps every record valid, moves it only forward and leaves tombstones alone |
| `OperationGate.ObservedFacts` | pal_plugin/pal_shell_remote/execution_gate.py:152-177 | a report keeps a record valid; session and output are written once and a running or delivering record has an output |
| `OperationGate.ReportTouches` | pal_plugin/pal_shell_remote/execution_gate.py:162-171 | a report changes an operation only in its own epoch, with no contradicting session or output, and one it is not about only while they share a session and it runs or delivers |
| `OperationGate.RestoredFacts` | pal_plugin/pal_shell_remote/execution_gate.py:38-56 | a restored record is valid, and unknown when its epoch is not the current one |
| `OperationGate.RunInv` | pal_plugin/pal_shell_remote/execution_gate.py:15-182 | in every run, live and retired ids are disjoint and every record decodes to a phase of its kind |
| `OperationGate.RunEvolves` | pal_plugin/pal_shell_remote/execution_gate.py:15-182 | over any stretch of a run, kind and holding never change, epoch, session and output are written once, a tombstone stays as it is |
| `OperationGate.ClaimedOnce` | pal_plugin/pal_shell_remote/execution_gate.py:58-73 | a claim answers True at most once per operation id |
| `OperationGate.SignedOnce` | pal_plugin/pal_shell_remote/execution_gate.py:92-101 | a signature is given at most once per operation id, and a signed operation is never unsigned again |
| `OperationGate.ControlSettlesItself` | pal_plugin/pal_shell_remote/execution_gate.py:103-150 | a control retires only by a receipt or a proven failure for its own id |
| `OperationGate.ConnectedUnknown` | pal_plugin/pal_shell_remote/execution_gate.py:32-36 | after a connection every operation of another epoch is unknown |
| `OperationGate.ForeignFrozen` | pal_plugin/pal_shell_remote/execution_gate.py:28-30 | while the epoch stays current, an operation of another epoch does not change, except that cancelling retires it exactly when it is unsigned |
| `OperationGate.ForeignUnknownExactly` | pal_plugin/pal_shell_remote/execution_gate.py:58-72 | operations of other epochs stay unknown exactly until a claim creates one for another epoch |
| `OperationGate.ForeignStaysUnknown` | pal_plugin/pal_shell_remote/execution_gate.py:32-182 | the same along every run after a connection |
| `OperationGate.ForeignClaimExample` | pal_plugin/pal_shell_remote/execution_gate.py:58-73 | a claim for another epoch is accepted and leaves an operation submitting |
| `OperationLaws.CallLeads` | pal_plugin/pal_shell_remote/execution_gate.py:15-182 | for every call and every valid record, the transition table leads to what the call means in terms of the record's public state, signature, epoch, session and output |
| `OperationLaws.RestoredIs` | pal_plugin/pal_shell_remote/execution_gate.py:38-56 | a restored record is what it was if it awaited approval or had an output in the current epoch; of any other nothing is known |
| `OperationLaws.ClaimIsTaken` | pal_plugin/pal_shell_remote/execution_gate.py:58-73 | in every run a new operation is submitted, or prepared for its signature, with the epoch and the session of the claim |
| `OperationLaws.SignsIff` | pal_plugin/pal_shell_remote/execution_gate.py:92-101 | the signature is given exactly for an unsigned record that waits, of a kind that needs one, in an epoch it has or may take |
| `OperationLaws.StartIsTaken` | pal_plugin/pal_shell_remote/execution_gate.py:152-177 | in every run a report that an operation runs shows it running with the output and the session reported |
| `OperationLaws.EndIsTaken` | pal_plugin/pal_shell_remote/execution_gate.py:152-177 | in every run a report of the end keeps the output if it is to be delivered and settles the operation otherwise |
| `OperationLaws.KeptUntilLetGo` | pal_plugin/pal_shell_remote/execution_gate.py:15-182 | in every run an output that waits for delivery stays, whatever else happens, until it is let go or its worker is gone |
| `OperationLaws.ReleaseSettles` | pal_plugin/pal_shell_remote/execution_gate.py:179-182 | letting the output go settles the operation for good |
| `OperationLaws.WorkerGone` | pal_plugin/pal_shell_remote/execution_gate.py:32-36 | a new worker makes the operation unknown and changes nothing else of it |
| `OperationLaws.WholeLife` | pal_plugin/pal_shell_remote/execution_gate.py:15-182 | a whole life with its records: claimed, running, ended, kept while anything else happens, let go |
| `ExecutionGate.ExecutionGate.AdvanceOne` | pal_plugin/pal_shell_remote/execution_gate.py:15-26 | one event stores the next phase or leaves a tombstone; an id without a record is left alone |
| `ExecutionGate.ExecutionGate.Connect` | pal_plugin/pal_shell_remote/execution_gate.py:32-36 | every id moves as the connection specifies, and the epoch becomes current |
| `ExecutionGate.ExecutionGate.RestoreAll` | pal_plugin/pal_shell_remote/execution_gate.py:38-56 | the first record of an id nobody knows is restored; owners and tombstones win |
| `ExecutionGate.ExecutionGate.ClaimOperation` | pal_plugin/pal_shell_remote/execution_gate.py:58-82 | the answer and the new record, for plain and control claims |
| `ExecutionGate.ClaimAnswerIs` | pal_plugin/pal_shell_remote/execution_gate.py:58-82 | a claim is new exactly for an id nobody claimed, and the caller's own exactly when the live record is of the same runtime, kind and, for a control, session |
| `ExecutionGate.ExecutionGate.BindEpoch` | pal_plugin/pal_shell_remote/execution_gate.py:84-90 | an epoch is bound once and only while it is current |
| `ExecutionGate.ExecutionGate.SignOperation` | pal_plugin/pal_shell_remote/execution_gate.py:92-101 | True exactly for the caller that turns a prepared record |
| `ExecutionGate.ExecutionGate.Fail` | pal_plugin/pal_shell_remote/execution_gate.py:103-111 | a failure binds an unbound record, then retires or unsettles it in its own epoch |
| `ExecutionGate.ExecutionGate.Cancel` | pal_plugin/pal_shell_remote/execution_gate.py:113-114 | an unsigned record is retired |
| `ExecutionGate.ExecutionGate.FailQuery` | pal_plugin/pal_shell_remote/execution_gate.py:116-119 | a failed query unsettles a record of the same epoch |
| `ExecutionGate.ExecutionGate.Reconcile` | pal_plugin/pal_shell_remote/execution_gate.py:121-124 | an unsigned record of the same epoch is retired |
| `ExecutionGate.ExecutionGate.TakeResult` | pal_plugin/pal_shell_remote/execution_gate.py:126-150 | a result moves its own record and shows its report to all, or changes nothing; what each record then says is stated without the transition table |
| `ExecutionGate.ExecutionGate.TakeSnapshot` | pal_plugin/pal_shell_remote/execution_gate.py:152-177 | a report moves exactly the records it may touch, each to what the report says |
| `ExecutionGate.ExecutionGate.ReleaseAll` | pal_plugin/pal_shell_remote/execution_gate.py:179-182 | every record of the output in the same epoch is released |
| `SessionRuntime.Runtime.MakeRoom` | runtime.cpp:485-494 | only delivered results are dropped, oldest first, until there is room, and none that ended watched and was not let go; failure means none is left to drop |
| `SessionRuntime.Runtime.Begin` | runtime.cpp:485-498 | a session is admitted within the capacity before its process exists, with nothing of it started, seen or delivered yet, or its request is refused; results not delivered are never dropped |
| `SessionRuntime.Runtime.Spawn` | runtime.cpp:96-110 | the process of an admitted session runs with the pipes it was given and its first request waiting, or could not be created and is settled; the first request is owed no more and no less |
| `SessionRuntime.Runtime.FireWait` | runtime.cpp:268-279 | an expired wait answers its request and the first one exposes the session |
| `SessionRuntime.Runtime.Conclude` | runtime.cpp:461-484 | at the end every request the session still owes is answered exactly once, and the session joins the completed queue |
| `SessionRuntime.Runtime.Complete` | runtime.cpp:461-484 | a session ends once it is settled and its flow is over, in either order, and only once |
| `SessionRuntime.Runtime.Settle` | runtime.cpp:442-460 | a process is settled once it exited and its pipes are drained |
| `SessionRuntime.Runtime.SeeExit` | runtime.cpp:412-422 | the exit of the process |
| `SessionRuntime.Runtime.DrainPipe` | runtime.cpp:376-378 | the end of one pipe |
| `SessionRuntime.Runtime.EndFlow` | runtime.cpp:116-119 | the end of the flow, also after a failed spawn |
| `SessionRuntime.Runtime.Read` | runtime.cpp:598-605 | a read of a live session waits, any other one is answered at once |
| `SessionRuntime.Runtime.CancelRequest` | runtime.cpp:703-720 | exactly the reads of the cancelled request stop waiting, each with a reply, and exactly the sessions whose undelivered first request it is are asked to stop |
| `SessionRuntime.CancelledGone` | runtime.cpp:710-715 | cancelling removes the read of that request from a session and no other wait |
| `SessionRuntime.StoppedExactly` | runtime.cpp:703-709 | a cancellation asks exactly the running sessions to stop whose first request it names and nobody took the answer of |
| `SessionRuntime.Runtime.Watch` | runtime.cpp:606-617 | a watch changes the session's clock only before the exit and only as the clock itself allows |
| `SessionRuntime.Runtime.Extend` | runtime.cpp:618-627 | an extension changes the session's clock only before the exit and only as the clock itself allows |
| `SessionRuntime.Runtime.RequestStop` | runtime.cpp:433-441 | a running session that is not settled is stopping with its clock stopped, and owes what it owed; any other one is left alone |
| `SessionRuntime.Runtime.Terminate` | runtime.cpp:663-669 | only a session that is not finished is asked to stop, and the request is answered |
| `SessionRuntime.Runtime.Unwatch` | runtime.cpp:628-636 | a finished result nobody watches counts as delivered |
| `SessionRuntime.Runtime.Acknowledge` | runtime.cpp:694-702 | only a terminal acknowledgement of a finished session marks its result as delivered |
| `SessionRuntime.Runtime.Release` | runtime.cpp:670-679 | only a finished session is released |
| `SessionRuntime.Runtime.ReleaseOutput` | runtime.cpp:680-693 | a repeated release of an output is answered and changes nothing |
| `SessionRuntime.AnsweredOnce` | runtime.cpp:461-605 | at any time every request has exactly one reply, or none yet and an unfinished session owes it |
| `SessionRuntime.EndsWhenDrained` | runtime.cpp:442-484 | at any time a session is settled exactly when its process was seen to exit and both of its pipes were read to the end, and it has ended only if its flow is over too |
| `SessionRuntime.KeptUntilLetGo` | runtime.cpp:461-702 | at any time the result of a session that ended while watched is there undelivered unless it was acknowledged, unwatched or released |
| `SessionRuntime.DroppableIff` | runtime.cpp:461-702 | at any time the result of a session may be dropped exactly when the session has ended, and did so unwatched or was acknowledged, unwatched or released since |
| `SessionRuntime.StopsForGood` | runtime.cpp:433-484 | a session that was asked to stop, or has ended, is never again watched, extended or woken |
| `OutputCapture.Capture.Read` | runtime.cpp:350-371 | each retained stream is a prefix of what was written, the limit holds, truncation happens exactly at the limit, and no error means nothing is missing |
| `SessionClock.RunsForItsBudget` | session_lifecycle.h:13-20 | a started session runs for exactly its budget if and only if the end of the budget is on the 64-bit clock |
| `SessionClock.BudgetPastTheClock` | session_lifecycle.h:13-20 | a budget that ends past the clock, where the session is over as soon as it starts |
| `SessionClock.SessionLifecycle.Extend` | session_lifecycle.h:21-27 | a deadline moves only by a positive amount that does not overflow; a refusal changes nothing |
| `SessionClock.SessionLifecycle.Watch` | session_lifecycle.h:28-35 | a refused watch changes nothing, a successful one sets a new generation |
| `SessionClock.ExtendIff` | session_lifecycle.h:21-27 | an extension is granted exactly to a session that is not stopped, before its deadline, by a positive amount that keeps it on the clock, and moves the deadline by that |
| `SessionClock.WatchIff` | session_lifecycle.h:28-35 | a watch is granted exactly to a running session for a wait of at most five minutes, together with the extension it asks for |
| `SessionClock.SessionLifecycle.Fire` | session_lifecycle.h:38-43 | a wake-up fires only for the current generation, in time, and clears itself |
| `SessionClock.FiresOncePerWatch` | session_lifecycle.h:28-43 | between two wake-ups there is always a new successful watch |
| `SessionClock.WatchWakes` | session_lifecycle.h:28-43 | in every run a watch that nothing disturbs wakes exactly when its time has come and the deadline has not |
| `SessionClock.StaleNeverWakes` | session_lifecycle.h:28-43 | a timer set before the watch was renewed or taken back wakes nobody |
| `SessionClock.NobodyWatches` | session_lifecycle.h:36-43 | in every run, once the watch is taken back nobody watches and nothing wakes until a new one is granted |
| `SessionClock.StoppedNeverFires` | session_lifecycle.h:37-43 | a stopped session stays stopped and never fires |
| `SessionClock.DeadlineOnlyGrows` | session_lifecycle.h:21-27 | a deadline is never lifted, lowered or wrapped |
| `Framing.ParseAppend` | rpc_transport.h:214-239 | reading on from what was left over is reading the whole stream |
| `Framing.ChunkingIrrelevant` | rpc_transport.h:215-239 | however the stream is cut, the receiver ends as if it had read it at once |
| `Framing.FramesRoundTrip` | rpc_transport.h:140-146 | sent frames come out as they went in, in order |
| `Framing.PrefixDelivers` | rpc_transport.h:214-239 | a stream that stops anywhere has delivered whole frames in order, none from the first one on that has neither marker nor full envelope, and all those before it once it is complete |
| `Framing.EmptyFrame` | rpc_transport.h:222-226 | a frame without content is neither sent nor taken: it ends the stream |
| `Framing.MarkedIsAcceptable` | rpc_transport.h:228-230 | a frame that begins with a marker is taken whatever follows, also when nothing does |
| `Framing.ShortFrameEndsStream` | rpc_transport.h:229-230 | a frame of eight bytes without a marker ends the stream, and nothing after it arrives |
| `Framing.EnvelopeRoundTrip` | rpc_transport.h:170-172 | a request id survives its envelope exactly when its leading bytes do not spell a marker of the older protocol |
| `Framing.MarkerIdIsLost` | rpc_transport.h:226-231 | every id that starts with such a marker is read back as no id |
| `RpcChannel.ChunkParse` | rpc_transport.h:217-227 | one chunk of at most the expected size completes a length, a frame, or nothing |
| `RpcChannel.CompleteAll` | rpc_transport.h:95-96 | closing answers every open request once |
| `RpcChannel.Channel.Finish` | rpc_transport.h:91-112 | after closing, every request ever made has exactly one completion; closing again does nothing |
| `RpcChannel.Channel.Send` | rpc_transport.h:140-146 | a frame is queued whole exactly when it fits, otherwise the channel closes |
| `RpcChannel.Channel.Request` | rpc_transport.h:163-175 | a request is refused with one completion or admitted, and an admitted one never fails the send-queue check |
| `RpcChannel.Channel.Cancel` | rpc_transport.h:176-179 | an open request is completed as cancelled, an unknown id changes nothing |
| `RpcChannel.Channel.Tick` | rpc_transport.h:147-157 | exactly the requests past their deadline are completed as timed out, in the order of their ids |
| `RpcChannel.Channel.WriteSome` | rpc_transport.h:199-213 | whatever the socket takes, the wire carries the queued frames in order and the counted bytes are the unsent ones |
| `RpcChannel.Channel.Deliver` | rpc_transport.h:226-237 | a whole frame answers the open request it names, without its envelope, or is passed on |
| `RpcChannel.Channel.Receive` | rpc_transport.h:217-238 | after any chunk the log holds exactly the frames of all bytes received; the channel closes exactly on a bad length or envelope |
| `RpcChannel.Channel.ReadSome` | rpc_transport.h:214-239 | the same for up to sixteen reads of any sizes |
| `RpcChannel.EndToEnd` | rpc_transport.h:140-239 | of two connected channels the receiver has logged whole frames of the sender in order; once everything was sent and received these are exactly the frames before the first unacceptable one, all of them exactly when all are acceptable, and otherwise the receiver is closed |
| `RpcChannel.BoundedMemory` | rpc_transport.h:21-21 | at most one unfinished frame, one queue and thirty-two requests are held |
| `ManagementJournal.OneOwnerAlways` | python/pal_shell_worker/management_helper.py:140-158 | at any time at most one helper is past the journal, and the record is then pending |
| `ManagementJournal.StartedOnce` | python/pal_shell_worker/management_helper.py:65-169 | with the worker's own program, whatever crashes, waits, is lost or is pruned and whatever the clock does, the worker says yes at most once, only after the signed commit, and the child is started at most once |
| `ManagementJournal.YesNeedsCommit` | python/pal_shell_worker/privilege.py:174-220 | in every run a yes, and so a child, comes after a signed commit in time, itself in time, and before the worker was closed |
| `ManagementJournal.LastMoment` | python/pal_shell_worker/privilege.py:174-220 | a grant is good up to its last moment: committed and asked for just then, the child is started |
| `ManagementJournal.HelperChecked` | python/pal_shell_worker/management_helper.py:38-49 | a helper goes to the lock only with a grant that has not ended and does not reach further than the window |
| `ManagementJournal.StartedOnceByJournal` | python/pal_shell_worker/management_helper.py:140-169 | whoever answers for the worker, while no helper takes the lock after records may have been pruned the journal alone starts the child at most once, and what it says of the child is true |
| `ManagementJournal.LateLockReserves` | python/pal_shell_worker/management_helper.py:149-158 | whenever a helper that checked the grant waits until the record of an ended child may be pruned, it can reserve the grant again |
| `ManagementJournal.LateLockStartsAgain` | python/pal_shell_worker/management_helper.py:1-4 | from there an untrusted answer starts a second child |
| `ManagementJournal.LateLockForgets` | python/pal_shell_worker/management_helper.py:159-163 | from there the worker's own refusal leaves a record saying that the child was never started |
| `ManagementJournal.OneWaits` | python/pal_shell_worker/management_helper.py:134-169 | such a waiting helper is reachable, whoever answers for the worker |
| `ManagementJournal.PendingHeld` | python/pal_shell_worker/management_helper.py:150-153 | a pending record is changed only by the helper that holds it |
| `ManagementJournal.LeftPending` | python/pal_shell_worker/management_helper.py:164-168 | a record whose helper died stays pending for good |
| `ManagementJournal.Permission.Commit` | python/pal_shell_worker/privilege.py:174-199 | only a signed approval in time arms the permission, once, as the permission of the run theorems does |
| `ManagementJournal.Permission.Consume` | python/pal_shell_worker/privilege.py:202-220 | only the exact signed grant is answered, as in the run theorems, and a yes leaves nothing to grant at any later time |
| `Admission.RequestAdmission.Acquire` | pal_plugin/pal_shell_remote/admission.py:18-27 | a permit at once, a place in the queue behind a full house, or a refusal |
| `Admission.RequestAdmission.PassOn` | pal_plugin/pal_shell_remote/admission.py:47-52 | a free permit goes to the first request that still waits, and only those that gave up are skipped |
| `Admission.RequestAdmission.Release` | pal_plugin/pal_shell_remote/admission.py:45-52 | a returned permit is passed on or becomes free |
| `Admission.RequestAdmission.Interrupt` | pal_plugin/pal_shell_remote/admission.py:28-31 | a timeout or cancellation does not take a permit that was granted already |
| `Admission.RequestAdmission.Resume` | pal_plugin/pal_shell_remote/admission.py:28-43 | an interrupted request gives back a permit granted meanwhile and leaves the queue otherwise |
| `Admission.RequestAdmission.Close` | pal_plugin/pal_shell_remote/admission.py:54-60 | closing fails exactly those who wait |
| `Admission.NoOvertaking` | pal_plugin/pal_shell_remote/admission.py:18-52 | at any time every request with a permit arrived before every request that still waits |
| `BlobStore.Store.Keep` | python/pal_shell_worker/files.py:26-37 | a result is kept within the limit or refused |
| `BlobStore.Store.BeginUpload` | python/pal_shell_worker/files.py:77-85 | an upload reserves its announced size or is refused |
| `BlobStore.Store.PutChunk` | python/pal_shell_worker/files.py:86-108 | a chunk extends the upload, repeats it, or is refused; the complete upload with the right digest becomes a blob, and reservations stay equal to the bytes they stand for |
| `BlobStore.Store.ReadBlob` | python/pal_shell_worker/files.py:109-114 | a blob is read in chunks from any offset within it |
| `BlobStore.Store.Release` | python/pal_shell_worker/files.py:115-123 | whatever a token names gives its reservation back |
| `BlobStore.Store.RetireResult` | python/pal_shell_worker/files.py:61-76 | a result gives way to its summary exactly when the summary fits in its place; otherwise the text is gone and the receipt names nothing, which cannot happen to a summary no longer than the text; nothing else changes |
| `BlobStore.LongerSummaryLost` | python/pal_shell_worker/files.py:61-76 | a full store that loses a text because its summary is longer |
| `BlobStore.AlwaysPrefix` | python/pal_shell_worker/files.py:86-108 | chunks of one file, lost, repeated and reordered, always leave a prefix of it |
| `BlobStore.RepeatAccepted` | python/pal_shell_worker/files.py:96-102 | a chunk of the same file is accepted exactly when it starts at the end or lies within what was received |
| `BlobStore.LongerRepeatRefused` | python/pal_shell_worker/files.py:96-102 | a repetition that reaches past what was received is refused although it is part of the file |
| `FileTransfer.Upload` | pal_plugin/pal_shell_native/files.py:121-134 | a value sent in chunks arrives whole, exactly when it is within the bound, the store has room and the token is new; over the bound nothing is sent, after any other refusal whatever the token named is dropped; without any bytes, which the host never sends, no chunk completes it |
| `FileTransfer.Download` | pal_plugin/pal_shell_native/files.py:152-164 | whatever a worker answers, a download that succeeds returns the announced content |
| `FileTransfer.Fetch` | pal_plugin/pal_shell_native/files.py:152-164 | from a worker that keeps the blob the download returns it |
| `FileTransfer.RoundTrip` | pal_plugin/pal_shell_native/files.py:121-164 | what was uploaded is what is downloaded |
| `EpochFence.RetiredForGood` | pal_plugin/pal_shell_native/router.py:105-111 | a retired epoch is never observed again and none of its results are admitted |
| `EpochFence.ReplacedIsRetired` | pal_plugin/pal_shell_native/router.py:105-111 | an epoch that was believed current and is not any more is retired |
| `EpochFence.NeverBack` | pal_plugin/pal_shell_native/router.py:105-111 | an epoch that lost its place never gets it back |
| `EpochFence.ObservedExactly` | pal_plugin/pal_shell_native/router.py:105-111 | a reply is believed exactly when its epoch was not retired and no later request heard another one; otherwise nothing changes, and the epoch it replaces is the only one retired |
| `EpochFence.NewestIsBelieved` | pal_plugin/pal_shell_native/router.py:105-111 | in every run what the newest request hears is believed at once, unless that epoch was retired |
| `EpochFence.LateRepliesIgnored` | pal_plugin/pal_shell_native/router.py:105-111 | in every run any number of late replies change nothing |
| `EpochFence.ReportRetires` | pal_plugin/pal_shell_native/router.py:137-140 | a report of a changed runtime retires its epoch exactly when that epoch, or none, is believed current; then nothing is believed, otherwise nothing changes |
| `EpochFence.ReportIgnored` | pal_plugin/pal_shell_native/router.py:137-140 | a report about another epoch is ignored, and that epoch can be observed later |
| `Router.ShellRouter.ObserveWorkerEpoch` | pal_plugin/pal_shell_native/router.py:105-111 | an epoch retired before is not admitted by being named again, and an epoch that loses its place is retired |
| `Router.ShellRouter.RuntimeReportedChanged` | pal_plugin/pal_shell_native/router.py:137-140 | the epoch a report concerns is admitted no longer, and every other target keeps its fence |
| `Router.ShellRouter.Submit` | pal_plugin/pal_shell_native/router.py:243-247 | a request is owned from before it is sent |
| `Router.ShellRouter.BeginControl` | pal_plugin/pal_shell_native/router.py:516-530 | a read or control of a known session gets a ticket of its own under the same public id, an unknown one is rejected |
| `Router.ShellRouter.AdoptResult` | pal_plugin/pal_shell_native/router.py:157-193 | a result is answered only for an owned operation of a session nobody let go and in an admitted epoch; the answer is the arriving report if it is in every respect at least what was known of the session, and what was known otherwise; a control that comes too late is settled |
| `Router.NewestIsAnswered` | pal_plugin/pal_shell_native/router.py:177-181 | the arriving report is answered exactly when its generation, sequence and both outputs are at least those known and an end is not taken back |
| `Router.LateAnswer` | pal_plugin/pal_shell_native/router.py:166-176 | an answer that comes after its session was let go removes the control that asked and nothing else |
| `Router.ShellRouter.ForgetOutput` | pal_plugin/pal_shell_native/router.py:597-620 | the loop drops exactly the settled requests for the same output of the same runtime, and its public id leaves the table |
| `Router.ForgetExactly` | pal_plugin/pal_shell_native/router.py:597-620 | exactly the requests whose last report names that output of that runtime leave; a control still waiting stays |
| `Router.ConsumedForGood` | pal_plugin/pal_shell_native/router.py:166-168 | in every run a public id that was let go is never in the table again |
| `Router.ReportsAdvance` | pal_plugin/pal_shell_native/router.py:177-181 | in every run generation, sequence and both outputs known under one public id never decrease and an end is never taken back, through whichever tickets they came |
| `Router.AnswersAdvance` | pal_plugin/pal_shell_native/router.py:177-193 | in every run a later answer under a public id is in generation, sequence, outputs and end at least an earlier one that named its session, came through the ticket that stands for the session, or said no more than was known |
| `Router.ForgottenGoesBack` | pal_plugin/pal_shell_native/router.py:177-193 | after any other answer what was known before is behind it, and a control that hears it is answered with it |
| `Router.UnnamedMayGoBack` | pal_plugin/pal_shell_native/router.py:184-188 | a run that reaches such an answer |
| `Router.RetiredNeverAnswers` | pal_plugin/pal_shell_native/router.py:161-165 | in every run, once an epoch of a target is retired no answer for that target carries it |

## Left out

- HostScope.Scope.Begin: the per-scope lock and the list of unresolved operations are not modelled, so the protocol allows more interleavings than the source and the results hold for those too.
- EditCredit.EditFile: the report and the patch enter by their lengths; finding the file and its grant, the compare-and-swap write and its failures are left out.
- FileRegistry.Registry.Execute: the delivery of the executed tool is an input, so the results hold for whatever the tools deliver; parsing of manifests and arguments is left out.
- ReadRendering.Render: the requested blocks arrive normalised to lines of the file; notices and the skipped-block tail are inputs, and nothing is claimed of the wording of headers and of the notes around the lines.
- SessionState.Session.RecordDelivery: the identity a delivery gets when it names no result is an input; snapshots set directly by a tool and the invalidation of a file are left out, and neither adds a lease.
- OperationGate.RestoredFacts: records of an older form that name no kind are taken to have had it filled in.
- SessionRuntime.Runtime.Begin: request numbers are taken to be unused; the shutdown of the whole runtime is not modelled.
- SessionRuntime.Runtime.RequestStop: the signals and the kill timer that follow, and what the flow library does with a stop before the process exists, are left out; the end of the flow may come at any time.
- RpcChannel.Channel.Tick: the timers that call it and close a stalled connection are inputs.
- Router.ShellRouter.AdoptResult: a ticket object is an entry of one table under its operation id, to which both of the router's tables refer.
- Admission.RequestAdmission.Resume: the event loop's scheduling is reduced to the order of the calls.
- ManagementJournal.StartedOnce: one grant is modelled; the journal's entries for other grants matter only by filling it and by pruning, which may happen at any time.
- Process, terminal, pipe and output-file handling, the libuv, dynabridge and Python binding layers: operating-system and library calls, whose outcomes are inputs in any order.
- Checkpoint restore of the host's scopes: it resets the confirmed revision and may set an older one, which is outside the protocol.
- The write tool, the caches over the session state, stale-file detection and unified diffs: they read the grants and snapshots described here and change neither.
- Output materialisation and caching, polling, completion delivery and setup of targets: they pass on what the router answered and take no part in which answer it is.
- The TLA+ specification the transition table was generated from: the model follows the table.
- Allocation failures in the C++ paths.
