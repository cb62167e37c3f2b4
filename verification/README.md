# Cadencia cores, modelled and proved in Dafny

This project models the parts of Cadencia whose correctness is hardest to see from any one function,
and proves what they keep over every input or every run:

- the hash-chained audit log: the canonical JSON printer, the hashed text, the chain verifier, the
  append protocol under concurrency, the database trigger, and cursor paging (`CanonicalJson`,
  `JsonReading`, `JsonDecoding`, `JsonUniqueness`, `JsonIdentity`, `JsonEquality`, `JsonValues`,
  `JsonSpelling`, `AuditLog`, `AuditAppend`, `AuditLocking`, `AuditRollback`, `AuditTrigger`, `AuditService`,
  `AuditPaging`);
- the FEMA and GST records: half-even rupee rounding, and the generation call under concurrency
  (`ComplianceAmounts`, `ComplianceRuns`);
- the browser's event-stream reader, its reconnect delay, and how many connections it keeps alive
  (`SseStream`, `SseStandard`, `SseLines`, `ReconnectBackoff`, `ReconnectStrands`);
- the on-chain escrow contract on a ledger with atomic groups (`EscrowLedger`, `EscrowContract`,
  `EscrowSafety`, `EscrowApp`);
- the negotiation-record backfill, bulk pricing, the admin activity feed, and the enterprise profile
  stored inside a JSON column (`Backfill`, `BulkPricing`, `ActivityFeed`, `EnterpriseStore`,
  `EnterpriseRuns`).

`Prelude` and `Sorting` hold the shared vocabulary. Where the source changes state step by step the
model has a class or a loop, proved against a specification function; runs of interleaved steps are
a `Step` function, an invariant, and an induction over action lists.

SHA-256 is a parameter `H`. No function into 64 hexadecimal digits is injective on all strings, so
results that need collision resistance ask for it (`AuditLog.CollisionFree`) on the texts that the
logs at hand actually hash, together with the genesis value never being returned for one of them.
Nothing else about the hash is assumed. Results about payload texts need no assumption: unique
readability of the compact JSON form is proved from the printer.

`dafny verify dfyconfig.toml` checks the whole project.

## Where the code differs from its description, or promises less

- The insert trigger expects an empty `prev_hash` on an escrow's first row
  (backend/alembic/versions/025_fk_constraints_and_audit_trigger.py:67-71) while the service writes 64
  zeros (backend/src/compliance/application/services.py:97). With both in place no run of any
  writers ever stores a row: `AuditLocking.TriggerAndServiceAgree` gives the exact condition.
- The hash joins event name and payload with a bar, and the verifier does not look at payload text
  (backend/src/compliance/domain/audit_log.py:42 and :143-168). A log in which a bar occurs has an
  accepted double that ends in the same hash and splits a body elsewhere: `AuditLog.TamperproofIff`
  gives the exact condition and `AuditLog.UnbalancedPayloadsConfuse` a genuine entry.
  `AuditLog.TamperEvidence` says what a reader has to check besides: that payloads are quote-balanced,
  as everything the service prints is.
- A reader that follows cursors misses entries when a page boundary falls between equal timestamps
  (`AuditPaging.TiedPairHalfRead`); with timestamps that never fall, only then
  (`AuditPaging.ReaderCompleteIff`), and for any clock `AuditPaging.AnyClockCompleteIff` says when.
- The backfill describes itself as skipping sessions already normalized, but its check raises when it
  finds the two records a finished session has. A second run counts errors
  (`Backfill.SecondRunCountsErrors`), and so does a first run that visits a session twice because
  others became terminal meanwhile (`Backfill.PushedSessionCountsError`); `Backfill.NoErrorsIff` gives
  the exact condition. A session whose seller side failed is never completed
  (`Backfill.HalfWrittenStaysHalf`).
- The contract's header says that freezing blocks funding and release; refund is blocked as well
  (backend/contracts/escrow_contract.py:46 and :152). The model follows the code.
- The comment on the FEMA form says more than 500,000 rupees; the code uses at least 500,000, on the
  amount before rounding (`ComplianceAmounts.SameAmountOnBothRecords`,
  `ComplianceAmounts.FormDisagreesIff`).
- The bulk-tier validator is described as checking that tiers are contiguous; gaps are accepted, and
  the lookup ignores a tier's maximum (`BulkPricing.GapAccepted`, `BulkPricing.ValidateBulkTiers`).
- The event-stream reader dispatches on every data line instead of on the blank line, so an event
  line that follows its data line names a later event or none; `SseStandard.StreamMeetsStandardIff` gives
  the exact condition for whole streams.
- A manual reconnect on a live stream leaves two reconnecting strands behind, because the aborted
  connection schedules its own successor, and so does an effect undone on a live stream leave one
  (`ReconnectStrands.OneStrandIff`, `ReconnectStrands.CleanupStopsIff`).
- The trigger is a second guard only for inserts that see each other: two open transactions may both be
  let in (`AuditTrigger.ConcurrentFirstRows`); `AuditTrigger.TriggerLinksIff` gives the exact condition.
- A profile field cleared to empty comes back from the documents the aggregate was loaded with
  (`EnterpriseRuns.StaleEntryReturns`), and an update refused for its amounts leaves them assigned
  (`EnterpriseRuns.RefusedAmountsStay`).

## Model

| member | source | states |
|---|---|---|
| `JsonUniqueness.RenderUnique` | backend/src/compliance/domain/audit_log.py:104 | the compact JSON text of a value, followed by anything that can follow a value, is read back in one way only, over every string, number, array and object |
| `JsonReading.QuotedStringReadsBack` | backend/src/compliance/domain/audit_log.py:104 | every printed string is read back as itself by an independent reader of section 7 of RFC 8259, surrogate pairs and short escapes included |
| `JsonValues.ValueReadsBack` | backend/src/compliance/domain/audit_log.py:104 | an independent reader of whole values, whose integers are the positional value of their digits, reads every well-formed value back from its printed text, whatever can follow a value follows it |
| `JsonValues.PayloadTextReadsBack` | backend/src/compliance/domain/audit_log.py:104 | a payload's stored text, read by that reader, is one whole value equal to the payload, and the keys of every object in it rise in code point order: at the first difference, or as a proper prefix |
| `JsonSpelling.ShortestSpelling` | backend/src/compliance/domain/audit_log.py:104 | the text of a value is printable ASCII, and no printable text that reads back as the value is shorter: nothing is escaped that need not be, no escape is longer than it has to be, no number has a superfluous digit or sign |
| `JsonSpelling.EscapePlain` | backend/src/compliance/domain/audit_log.py:104 | the upper-case letters in a printed string are the string's own, in their order, so escapes are lower-case |
| `JsonIdentity.CanonSame` | backend/src/compliance/domain/audit_log.py:104 | sorting keys at every depth identifies exactly the values that are equal as typed JSON values, objects compared by keys and values |
| `JsonIdentity.PayloadTextDecidesPayload` | backend/src/compliance/domain/audit_log.py:104 | two payloads have the same stored text if and only if they are equal as typed JSON objects |
| `JsonEquality.TextIsEqualityAndSpelling` | backend/src/compliance/domain/audit_log.py:104 | without NaN, two payloads have the same stored text if and only if they are equal as Python dicts and every number in them has the same type and text |
| `JsonEquality.EqualDictsOtherTexts` | backend/src/compliance/domain/audit_log.py:104 | equality as Python dicts is not enough: 1, True and 1.0 under one key are one dict and three texts |
| `JsonIdentity.InsertionOrderIrrelevant` | backend/src/compliance/domain/audit_log.py:104 | payloads that hold the same members in another order have the same text |
| `JsonDecoding.NoBalancedSuffixAfterBar` | backend/src/compliance/domain/audit_log.py:42 | no printed payload ends with a bar followed by another printed payload: the quote-parity fact behind unique decoding |
| `JsonDecoding.RenderBalanced` | backend/src/compliance/domain/audit_log.py:104 | every printed value leaves a quote scanner outside all strings, so bars and backslashes occur inside strings only |
| `AuditLog.PreimageDetermines` | backend/src/compliance/domain/audit_log.py:35-43 | for previous hashes of equal length and printed payloads, the hashed text is the same if and only if all three parts are, bars in the event name included |
| `AuditLog.PreimageDeterminesPayload` | backend/src/compliance/domain/audit_log.py:94-109 | the hashed text is the same if and only if previous hash and event name are and the payloads are equal as typed JSON objects |
| `AuditLog.CreatedEntryRecords` | backend/src/compliance/domain/audit_log.py:85-117 | a created entry carries its arguments, a payload text that reads back as a value equal to the payload, and the hash of previous hash, event and that text joined by bars |
| `AuditLog.Verify` | backend/src/compliance/domain/audit_log.py:143-168 | the loop answers valid exactly when the sorted list is a genesis-rooted chain; it reports the number at the first bad position, which for distinct numbers is the least number whose hash or link is wrong, described without sorting |
| `Sorting.SortIsStable` | backend/src/compliance/domain/audit_log.py:154 | elements that the order cannot tell apart, entries with one number say, keep their order |
| `AuditLog.SortedVerdict` | backend/src/compliance/domain/audit_log.py:153-168 | stopping at the first bad position of the sorted list is finding the least unsound entry of the unordered one |
| `AuditLog.RenumberedPrefixAccepted` | backend/src/compliance/domain/audit_log.py:42-43 | every prefix of a chain, under any order-preserving renumbering, escrow and list order, is accepted: the hash covers neither escrow nor number |
| `AuditLog.HashMeetsText` | backend/src/compliance/domain/audit_log.py:38-56 | two chained entries share a hash exactly when previous hash and hashed body agree, and no chained entry carries the genesis value as its own hash |
| `AuditLog.HashMeetsHistory` | backend/src/compliance/domain/audit_log.py:104-109 | two entries anywhere share a hash exactly when they stand at the same position after identical events and payloads |
| `AuditLog.SameFinalHashSameTexts` | backend/src/compliance/domain/audit_log.py:38-56 | two chains ending in the same hash have the same length, links, hashes and joined event and payload texts, whatever their payload texts are |
| `AuditLog.SameFinalHashSameLog` | backend/src/compliance/domain/audit_log.py:38-56 | a printed chain and any chain ending in its last hash agree on every event and payload if and only if the other's payloads are quote-balanced as well |
| `AuditLog.AcceptedSameTexts` | backend/src/compliance/domain/audit_log.py:143-168 | any two lists that the verifier accepts and that end in one hash have the same length, links, hashes and joined event and payload texts |
| `AuditLog.TamperEvidence` | backend/src/compliance/domain/audit_log.py:143-168 | any list the verifier accepts that ends in the hash of a printed log holds the same events and payloads in the same order if and only if its own payloads are quote-balanced |
| `AuditLog.TamperproofIff` | backend/src/compliance/domain/audit_log.py:143-168 | verifier and final hash by themselves fix every event and payload of an accepted list if and only if none of its events and payloads contains a bar |
| `AuditLog.UnbalancedPayloadsConfuse` | backend/src/compliance/domain/audit_log.py:35-43 | a genuine one-entry log whose payload value holds a bar, and an accepted entry with the same hash, another event and another payload text |
| `AuditAppend.FreshNumberFits` | backend/alembic/versions/003_compliance_phase3.py:52 | a row built on any committed row of its escrow, however stale, repeats a stored number or extends the log as it stands now |
| `AuditAppend.StepKeepsInv` | backend/src/compliance/application/services.py:91-111 | every step of any writer keeps every escrow's rows numbered, chained and hash-unique, and every pending row compatible with them |
| `AuditAppend.RunAppendsOnly` | backend/alembic/versions/004_compliance_rls.py:47-61 | over any run committed rows are never changed, removed or reordered |
| `AuditAppend.EveryRunChains` | backend/src/compliance/application/services.py:91-111 | in every interleaving, stale reads included, each escrow's rows are numbered 0, 1, 2, ... and linked, and the verifier accepts them in any order |
| `AuditRollback.EveryRowWasCommitted` | backend/src/compliance/application/services.py:91-111 | after any run the rows are, in order, those of the run's commits, one for each committed transaction and none for any other, and each records its transaction's escrow, event and payload |
| `AuditRollback.RolledBackLeavesNothing` | backend/src/shared/infrastructure/db/uow.py:74-81 | a transaction rolled back before its commit, at any moment of any run, changes no row and no other transaction, is aborted for good, has no row in the whole run before or after, never again holds a lock, and whoever waited for its lock gets it |
| `AuditRollback.RunKeepsOwned` | backend/src/compliance/infrastructure/repositories.py:47-57 | over every run each held lock belongs to an open transaction past the lock whose escrow has that key |
| `AuditRollback.LockKeySharedIff` | backend/src/compliance/infrastructure/repositories.py:51-57 | two escrows share a lock exactly when the first 8 bytes of their ids agree, and the key is a signed 64-bit integer |
| `AuditLocking.RunKeepsLocks` | backend/src/compliance/infrastructure/repositories.py:47-57 | with the transaction-scoped lock, whatever a writer has read is still its escrow's latest row when it inserts |
| `AuditLocking.LockedInsertRefusedOnlyForHash` | backend/src/compliance/infrastructure/repositories.py:47-57 | under the lock, with the service's marker, an insert of any run waits exactly for a pending row with the same hash, is refused exactly for a stored one, and is otherwise stored as its escrow's next row |
| `AuditLocking.RefusedExactlyForRepeatedHistory` | backend/alembic/versions/003_compliance_phase3.py:53 | such a row repeats a stored hash if and only if some escrow already holds the same history, event for event |
| `AuditLocking.TriggerAndServiceAgree` | backend/alembic/versions/025_fk_constraints_and_audit_trigger.py:60-78 | some run stores a row if and only if the trigger is absent or takes the service's first-row value; with the marker as written no run stores any |
| `AuditTrigger.TriggerLinksIff` | backend/alembic/versions/025_fk_constraints_and_audit_trigger.py:60-78 | over any rows the trigger let in, whoever inserted them and whatever each trigger could see yet, an escrow's sorted log is linked if the latest row each trigger saw is the row's predecessor by number, and, where hashes tell rows apart and differ from the marker, only if |
| `AuditTrigger.TriggerLinks` | backend/alembic/versions/025_fk_constraints_and_audit_trigger.py:60-78 | rows committed in increasing number order are linked if each row's trigger saw the escrow's rows before it, and, where hashes tell rows apart, only if |
| `AuditTrigger.SerialLinksIff` | backend/alembic/versions/025_fk_constraints_and_audit_trigger.py:60-78 | with inserts one after another, and hashes that tell rows apart, the sorted log is linked if and only if the rows came in increasing number order |
| `AuditTrigger.ConcurrentFirstRows` | backend/alembic/versions/025_fk_constraints_and_audit_trigger.py:60-71 | two open transactions that do not see each other's first row are both let in, in number order, and are not linked |
| `AuditTrigger.TriggerNeedsOrder` | backend/alembic/versions/025_fk_constraints_and_audit_trigger.py:60-65 | out of number order, even one after another, it admits rows whose sorted log is not linked |
| `AuditService.AuditDatabase.AcquireAdvisoryLock` | backend/src/compliance/infrastructure/repositories.py:47-57 | the lock step on the object, equal to the protocol's step and keeping its invariants |
| `AuditService.AuditDatabase.GetLatest` | backend/src/compliance/infrastructure/repositories.py:72-80 | returns the visible row with the greatest number and keeps the invariants |
| `AuditService.AuditDatabase.Append` | backend/src/compliance/infrastructure/repositories.py:59-70 | the insert step, with the constraint that refuses it when one does |
| `AuditService.AuditDatabase.RollbackTransaction` | backend/src/shared/infrastructure/db/uow.py:74-81 | the rollback step on the object: the table as it was and the transaction's lock free |
| `AuditService.AuditDatabase.AppendAuditEvent` | backend/src/compliance/application/services.py:82-120 | at any moment of any run one call adds exactly one row recording the command at the end of its escrow's log, or leaves the table alone: waiting exactly when an open transaction past the lock works on an escrow with the same first 8 bytes or the hash is pending, refused exactly when the hash is stored, or by a trigger with another marker |
| `AuditPaging.CursorAdvances` | backend/src/compliance/application/services.py:132-143 | each cursor leaves strictly fewer entries to read, whatever the timestamps, so following cursors terminates |
| `AuditPaging.ReaderSeesEverything` | backend/src/compliance/application/services.py:122-143 | with strictly increasing timestamps a reader gets every entry present at the start once and in order, then those that arrived before its last page, appends between pages included |
| `AuditPaging.FollowSkipsTies` | backend/src/compliance/infrastructure/repositories.py:88-97 | with ties and appends between pages, exactly the entries tied with a page's last entry and standing after it when the next page is read are skipped |
| `AuditPaging.ReaderCompleteIff` | backend/src/compliance/application/services.py:132-143 | with timestamps that never fall, appends between pages included, the reader sees everything up to its last page if and only if no page boundary falls between equal timestamps; on an unchanging log that is the whole log |
| `AuditPaging.TiedPairHalfRead` | backend/src/compliance/infrastructure/repositories.py:88-97 | the smallest loss: of two entries with one timestamp, read one at a time, the second is never seen |
| `AuditPaging.AnyClockCompleteIff` | backend/src/compliance/application/services.py:132-143 | whatever the clock does and whatever limit is asked for: everything up to the last page once and in order, if and only if every page boundary has all earlier stamps at most, and all later ones above, the stamp before it |
| `ComplianceAmounts.RoundNearest` | backend/src/compliance/domain/gst_record.py:90-121 | the rounded value is the only integer within half a unit, and the even one of a tied pair |
| `ComplianceAmounts.SameAmountOnBothRecords` | backend/src/compliance/application/services.py:173-212 | both records succeed together, exactly when the amount does not round below zero; both carry microALGO times the given rate, or 15 rupees without a usable one, to the nearest paisa and the even one on a tie; the form is 15CB from 500,000 rupees before rounding on; the tax is the state regime's, rounded from that amount, and every other field is the request's |
| `ComplianceAmounts.SplitTaxClose` | backend/src/compliance/domain/gst_record.py:94-121 | on one taxable amount CGST plus SGST differs from IGST by at most one paisa |
| `ComplianceAmounts.TotalTaxIsEighteenPercent` | backend/src/compliance/domain/gst_record.py:134-141 | under either regime the total tax on a generated record is within one paisa of 18% of its taxable amount |
| `ComplianceAmounts.SummedIgstClose` | backend/src/compliance/domain/gst_record.py:94-99 | over any n interstate requests the summed IGST of the generated records is within n/2 paise of 18% of their summed taxable amounts |
| `ComplianceAmounts.AmountsMonotone` | backend/src/compliance/domain/fema_record.py:79-93 | more microALGO never lowers any recorded amount or tax, nor the form |
| `ComplianceAmounts.FormDisagreesIff` | backend/src/compliance/domain/fema_record.py:79-93 | form and stored amount disagree exactly within half a paisa below 500,000 rupees, and then the form is the lower one |
| `ComplianceRuns.StepKeepsInv` | backend/src/compliance/application/services.py:166-219 | every step of any call keeps the two tables paired and never replaces a record |
| `ComplianceRuns.EveryRunPairsRecords` | backend/src/compliance/infrastructure/models.py:62-64 | in every interleaving of calls and crashes an escrow has a FEMA record if and only if it has a GST record, both the records of one and the same request as `SameAmountOnBothRecords` describes them, never replaced later; a call that returned has returned the stored pair |
| `ComplianceRuns.UndisturbedCallReturns` | backend/src/compliance/application/services.py:158-219 | after any run, a call that nobody disturbs returns the pair the escrow has, or stores and returns the records of its own request, and fails exactly on an amount that rounds below zero |
| `ComplianceRuns.ComplianceStore.GenerateComplianceRecords` | backend/src/compliance/application/services.py:158-219 | one undisturbed call returns the stored pair if there is one, stores the records of its request otherwise, and changes nothing when it fails, which is exactly on an amount that rounds below zero |
| `SseStream.SplitContinues` | frontend/src/hooks/useSSE.ts:61-63 | splitting a text is splitting its first part and continuing its last piece: why carrying the last piece over is enough |
| `SseStream.ChunkingIrrelevant` | frontend/src/hooks/useSSE.ts:54-84 | however the text is cut, dispatched events, last id, pending name and left-over buffer are those of reading it in one piece |
| `SseStream.SameTextSameReader` | frontend/src/hooks/useSSE.ts:54-84 | two ways of cutting the same text end in the same reader |
| `SseStream.Connection.ReadChunk` | frontend/src/hooks/useSSE.ts:61-83 | the loop over one chunk's lines computes the reader's specification |
| `SseStream.Connection.ReadStream` | frontend/src/hooks/useSSE.ts:57-84 | the whole read loop ends as if the stream had come in one chunk |
| `SseStandard.FramesMeetStandard` | frontend/src/hooks/useSSE.ts:54-84 | on frames of one event line then one data line, cut in any way, the reader delivers the events of section 9.2.6 of the WHATWG HTML Standard whose data parses, in order, and remembers the same last event id |
| `SseStandard.StreamMeetsStandardIff` | frontend/src/hooks/useSSE.ts:54-84 | for any stream of frames with one event and one data line in either order, cut in any way, reader and standard deliver the same if and only if every frame whose data parses has its event line first or finds its own event name left pending |
| `SseStandard.EventLinesMustComeFirst` | frontend/src/hooks/useSSE.ts:69-82 | where all data parses: if and only if every event line comes first |
| `SseStandard.EventLineMustComeFirst` | frontend/src/hooks/useSSE.ts:69-82 | the case of a single frame |
| `SseLines.DispatchesExactly` | frontend/src/hooks/useSSE.ts:65-83 | over any list of lines, a data line that parses is dispatched under the name of the last event line before it if no data line came between, and is dropped otherwise; no other line dispatches |
| `SseLines.LastIdLineCounts` | frontend/src/hooks/useSSE.ts:65-68 | the last event id is the value of the last id line |
| `SseLines.PaddedFieldLine` | frontend/src/hooks/useSSE.ts:66-72 | an id, event or data line is recognised with its value under any white space before and after |
| `SseLines.FieldLineOnly` | frontend/src/hooks/useSSE.ts:66-72 | and a line recognised is such a label and value with white space around them |
| `SseLines.CarriageReturnsIgnored` | frontend/src/hooks/useSSE.ts:61-66 | a stream whose lines end in CR LF reads as the same stream with plain newlines |
| `ReconnectBackoff.ClosedForm` | frontend/src/hooks/useSSE.ts:92-93 | after any history the delay kept, and so the next wait, is min(1000 * 2^k, 30000), k attempts after the last reset |
| `ReconnectBackoff.Backoff.Connect` | frontend/src/hooks/useSSE.ts:44-95 | an attempt that got a response is followed by a wait of the base delay, any other by the closed form of the history so far |
| `ReconnectBackoff.Backoff.OnEnded` | frontend/src/hooks/useSSE.ts:89-95 | the wait scheduled by an attempt that ends has that closed form, and the stored delay is the one the history calls for |
| `ReconnectBackoff.Backoff.Reconnect` | frontend/src/hooks/useSSE.ts:110-118 | a manual reconnect waits the base delay and starts the count over |
| `ReconnectStrands.OneStrandIff` | frontend/src/hooks/useSSE.ts:88-118 | after one mount there is always a connection or a timer alive, and only one if and only if each manual reconnect is made while the remembered timer is pending |
| `ReconnectStrands.RememberedIff` | frontend/src/hooks/useSSE.ts:91-118 | a timer is pending and remembered exactly when the end of a live connection scheduled it and nothing since has cleared it, fired it or scheduled another: a reconnect's own timer never is |
| `ReconnectStrands.CleanupStopsIff` | frontend/src/hooks/useSSE.ts:99-108 | undoing the effect stops one exactly when the remembered timer is pending; on a live stream it stops none, then or later |
| `EscrowLedger.TransferConserves` | backend/contracts/escrow_contract.py:129-134 | a transfer moves exactly its amount, touches two accounts and creates no money |
| `EscrowContract.SubmitKeepsAccounts` | backend/contracts/escrow_contract.py:64-87 | no group changes the roles, the amount or the session fixed at creation |
| `EscrowSafety.ExecuteKept` | backend/contracts/escrow_contract.py:89-190 | one transaction conserves money, moves the status along its edges only, pays exactly when the status ends, moves no escrow money and no state while frozen, the creator's unfreeze apart, and only the creator ends or unfreezes, only a party or the creator freezes |
| `EscrowSafety.EveryRunSafe` | backend/contracts/escrow_contract.py:89-190 | over every run of groups mixed with any payments: money is conserved, the status never moves back, a funded account covers the amount, at most one payout of the amount goes to the party the status names, and a frozen escrow changes nothing and loses nothing unless the creator sends an unfreeze |
| `EscrowSafety.FromCreation` | backend/contracts/escrow_contract.py:64-87 | the same from any creation, whose roles, amount and session stay as given: released means the seller got the amount, refunded the buyer, anything else nobody |
| `EscrowSafety.FundingGroupSucceeds` | backend/contracts/escrow_contract.py:89-109 | a payment of the amount and the call in one group fund a deployed, unfrozen escrow: the contract account gains exactly the amount and nothing else changes but the fees; below the network's fee nothing does |
| `EscrowSafety.CallGoesThroughIff` | backend/contracts/escrow_contract.py:89-190 | a call fails where the contract does not permit its sender, status, freeze or payment; any other but a payout has exactly its one effect on the contract and costs the fee |
| `EscrowSafety.FailedTransactionUndoesGroup` | backend/contracts/escrow_contract.py:89-109 | a group in which any transaction fails at its turn leaves ledger and contract as they were |
| `EscrowSafety.GroupRefused` | backend/contracts/escrow_contract.py:89-190 | a group of none, of more than sixteen, or paying less than a fee for each transaction changes nothing |
| `EscrowSafety.PartiesFreeze` | backend/contracts/escrow_contract.py:162-176 | in every status, frozen or not, a freeze by buyer, seller or creator sets the flag and changes nothing else but the fee; anybody else's changes nothing |
| `EscrowSafety.FreezeHaltsUntilCreatorLifts` | backend/contracts/escrow_contract.py:162-190 | after a party's freeze, in any status, no run without the creator's unfreeze changes the contract, pays anyone or takes from its account, unfreezes by others included |
| `EscrowSafety.CreatorLifts` | backend/contracts/escrow_contract.py:178-190 | the creator's unfreeze alone lifts a freeze and changes nothing but the fee; anybody else's, or one with nothing to lift, changes nothing |
| `EscrowSafety.PayoutAloneIff` | backend/contracts/escrow_contract.py:122-160 | a creator's release or refund without top-up goes through if and only if its fee covers the inner payment and the surplus is 0 or at least 100,000, and otherwise nothing changes |
| `EscrowSafety.ToppedUpPayoutSucceeds` | frontend/src/context/WalletContext.tsx:303-319 | with the wallet's 100,000 top-up in front it goes through for every surplus |
| `EscrowApp.CadenciaEscrow.Initialize` | backend/contracts/escrow_contract.py:64-87 | creation gives the deployed, unfrozen contract that every run starts from |
| `EscrowApp.CadenciaEscrow.FundEscrow` | backend/contracts/escrow_contract.py:89-109 | funds exactly when deployed, unfrozen and on a payment of the amount to the contract account, else leaves all state alone |
| `EscrowApp.CadenciaEscrow.ReleaseEscrow` | backend/contracts/escrow_contract.py:111-135 | succeeds exactly for the creator of a funded, unfrozen, covered escrow, and pays the amount to the seller with the Merkle root as note |
| `EscrowApp.CadenciaEscrow.RefundEscrow` | backend/contracts/escrow_contract.py:137-160 | the same with the buyer and the reason |
| `EscrowApp.CadenciaEscrow.FreezeEscrow` | backend/contracts/escrow_contract.py:162-176 | succeeds exactly for buyer, seller or creator, in any status, and then the escrow is frozen |
| `EscrowApp.CadenciaEscrow.UnfreezeEscrow` | backend/contracts/escrow_contract.py:178-190 | only the creator unfreezes, and only what is frozen |
| `EscrowApp.CadenciaEscrow.SubmitGroup` | backend/contracts/escrow_contract.py:89-190 | a group runs in order or leaves the ledger and the contract untouched, and keeps the safety invariant |
| `Backfill.NoneMissed` | backend/scripts/backfill_negotiation_records.py:77-92 | no session terminal at the start is missed, even if others become terminal between batches |
| `Backfill.FixedTable` | backend/scripts/backfill_negotiation_records.py:77-92 | on a fixed table the loop visits every session once, in order |
| `Backfill.CountersAddUp` | backend/scripts/backfill_negotiation_records.py:97-159 | processed, skipped and errors add up to the sessions visited, records only grow, and a dry run writes none |
| `Backfill.AddedRecordsDescribe` | backend/scripts/backfill_negotiation_records.py:125-145 | whatever fails, every record a run adds names a visited session and the enterprise on its side, and only parties to visited sessions are counted as affected |
| `Backfill.RunCounts` | backend/scripts/backfill_negotiation_records.py:97-145 | an exception-free run leaves a session without records with one of each side, and no other session's records change |
| `Backfill.AddsNothingIff` | backend/scripts/backfill_negotiation_records.py:99-107 | a run adds nothing if and only if every visited session already has a record |
| `Backfill.TallyIsExact` | backend/scripts/backfill_negotiation_records.py:97-159 | an exception-free run, sessions it visits twice included, processes each unrecorded session once, skips exactly the visits to sessions with one record, and counts every other visit as an error |
| `Backfill.DryTallyIsExact` | backend/scripts/backfill_negotiation_records.py:114-123 | an exception-free dry run judges every visit by the records it starts from: none is processed, one skipped, two an error |
| `Backfill.NoErrorsIff` | backend/src/negotiation/infrastructure/repositories.py:697-703 | an exception-free run counts no error if and only if no session it visits has two records already and, unless it is a dry run, no unrecorded session is visited twice |
| `Backfill.RecordsWithFailures` | backend/scripts/backfill_negotiation_records.py:97-159 | what any run leaves of a session, whatever fails and however often it is visited: one buyer record if it had none, loads and normalizes on that side, one seller record if its seller side does too, else what it had |
| `Backfill.TallyWithFailures` | backend/scripts/backfill_negotiation_records.py:97-159 | what a run counts when sessions fail, each visited once or in a dry run: processed, skipped and errors by session, and exactly the parties to processed sessions as affected |
| `Backfill.PushedSessionCountsError` | backend/scripts/backfill_negotiation_records.py:77-107 | a first run over no records counts an error when an older session becomes terminal between two batches and pushes a visited one onto the next page |
| `Backfill.RepeatedRun` | backend/scripts/backfill_negotiation_records.py:97-159 | repeating an exception-free run, from any records and over any visits, adds nothing, skips only visits to sessions that had one record before the first run, counts every other visit as an error, and counts none if and only if each had one |
| `Backfill.SecondRunCountsErrors` | backend/src/negotiation/infrastructure/repositories.py:697-703 | over a fixed table without records, the first run completes every session and the second counts every one as an error |
| `Backfill.StartedSessionsRecorded` | backend/scripts/backfill_negotiation_records.py:77-145 | a session terminal at the start ends an exception-free run with one record of each side although others become terminal meanwhile |
| `Backfill.FirstRecordIsFinalForever` | backend/scripts/backfill_negotiation_records.py:99-107 | once a session has any record, no sequence of later runs, whatever fails in them, adds or removes one of its records |
| `Backfill.HalfWrittenStaysHalf` | backend/scripts/backfill_negotiation_records.py:125-159 | if the seller side of an unrecorded session fails in some run, it keeps one buyer and no seller record through every later sequence of runs |
| `Backfill.RunBackfill` | backend/scripts/backfill_negotiation_records.py:77-171 | the loop terminates and leaves exactly the records and counters of visiting those sessions in order |
| `BulkPricing.NeighboursDecide` | backend/src/marketplace/domain/catalogue_item.py:121-134 | checking neighbours in sorted order is checking all pairs of the list as given |
| `BulkPricing.ValidateBulkTiers` | backend/src/marketplace/domain/catalogue_item.py:117-134 | accepts exactly the lists whose tiers share at most a boundary, in any order, and otherwise reports the first fault in sorted order: a tier without end before another, or an overlap |
| `BulkPricing.GetPriceForQuantity` | backend/src/marketplace/domain/catalogue_item.py:136-148 | the price of a tier with the greatest minimum not above the quantity, the list price if there is none |
| `BulkPricing.PriceDetermined` | backend/src/marketplace/domain/catalogue_item.py:136-148 | on validated tiers the price depends on the quantity alone, not on the order of the list |
| `BulkPricing.AntitoneIff` | backend/src/marketplace/domain/catalogue_item.py:117-148 | over the positive quantities orders can have, ordering more never costs more per unit if and only if the prices some order can get fall tier by tier, and none exceeds the list price when some order is below every tier |
| `ActivityFeed.CombinedStamps` | backend/src/admin/services/admin_service.py:635-637 | the newest of a combined list are the merge of the two sorted lists, cut |
| `ActivityFeed.CuttingEarlyIsSafe` | backend/src/admin/services/admin_service.py:586-637 | taking the newest of each source before combining shows the same timestamps as sorting everything and cutting once, for every limit |
| `ActivityFeed.FeedShowsRows` | backend/src/admin/services/admin_service.py:598-637 | the feed is as long as limit and rows allow, and every item is a row of its own source |
| `ActivityFeed.FeedLeavesOutOldest` | backend/src/admin/services/admin_service.py:635-637 | a row that is not shown is no newer than any that is, and only a full feed leaves one out |
| `ActivityFeed.TerminalRowsExactly` | backend/src/admin/services/admin_service.py:610-620 | the session query returns exactly the sessions that agreed, failed, were walked away from or timed out |
| `ActivityFeed.ListActivity` | backend/src/admin/services/admin_service.py:582-637 | the two-query listing, either query allowed to fail, returns those items and those timestamps newest first, every item a row of its source and every session shown in a terminal status |
| `EnterpriseStore.SavedField` | backend/src/identity/infrastructure/repositories.py:78-94 | a saved column holds each non-empty field, and the old document's entry where the field is empty |
| `EnterpriseStore.OtherKeysKept` | backend/src/identity/infrastructure/repositories.py:92-94 | saving touches no key but the five it owns |
| `EnterpriseStore.FalseGeographyIsNotStored` | backend/src/identity/infrastructure/repositories.py:80-86 | a geography is stored exactly when it is none of the values Python counts as false |
| `EnterpriseStore.ListedParts` | backend/src/identity/domain/enterprise.py:156-157 | listing a string gives its characters one by one, a dict its keys in order, and anything but these and a list raises |
| `EnterpriseStore.ReadsBackIff` | backend/src/identity/infrastructure/repositories.py:55-62 | a saved profile reads back whole if and only if no empty field uncovers an entry of the documents |
| `EnterpriseStore.SavingTwiceIsSavingOnce` | backend/src/identity/infrastructure/repositories.py:78-103 | whatever a column held, saving what was loaded from it reaches a fixed point at once |
| `EnterpriseRuns.FieldSurvives` | backend/src/identity/domain/enterprise.py:71-90 | a stored non-empty field keeps its value, in memory and as the row reads back, through every run of loads, saves, submissions and updates that do not name it, whatever documents overwrite it |
| `EnterpriseRuns.LastWriteReadsBack` | backend/src/identity/domain/enterprise.py:132-161 | a field that an update names and reaches with a non-empty value is, once saved, stored and loaded as that value until an update names it again, amounts up to the float they are stored as |
| `EnterpriseRuns.ConfiguredUpdates` | backend/src/identity/domain/enterprise.py:132-161 | an update raises exactly on an amount that does not convert, on amounts out of order once assigned, or on commodities that are no list, and every field it names before that point takes its converted value while every other keeps its own |
| `EnterpriseRuns.SubmittedDocumentsStay` | backend/src/identity/domain/enterprise.py:71-90 | documents submitted while pending and saved are the row's documents under every key outside the profile through any later run, and the status stays submitted |
| `EnterpriseRuns.ColumnRefinesPlainStore` | backend/src/identity/infrastructure/repositories.py:78-103 | until a field is cleared, no run can tell the shared JSON column from five columns of their own |
| `EnterpriseRuns.StaleEntryReturns` | backend/src/identity/infrastructure/repositories.py:92-94 | an empty field whose entry the documents still hold is filled with it by the next save and load |
| `EnterpriseRuns.ClearedVerticalReappears` | backend/src/identity/infrastructure/repositories.py:82-94 | the smallest such run, for any value |
| `EnterpriseRuns.Enterprise.SubmitKyc` | backend/src/identity/domain/enterprise.py:71-90 | accepted exactly when pending; replaces the documents and touches no profile field |
| `EnterpriseRuns.Enterprise.UpdateAgentConfig` | backend/src/identity/domain/enterprise.py:132-161 | the assignments in their order: every field named and reached takes the value given, every other keeps its own, and it raises exactly where the description of `ConfiguredUpdates` says |
| `EnterpriseRuns.EnterpriseRow.Overwrite` | backend/src/identity/infrastructure/repositories.py:78-103 | building the dict step by step and merging it writes the column that the specification says |
| `EnterpriseRuns.EnterpriseRow.Restore` | backend/src/identity/infrastructure/repositories.py:32-67 | the loaded aggregate has the fields the column describes; loading fails exactly on a value that does not convert |

## Left out

- AuditLog.TamperEvidence: asks that the hash has no collision, and does not hit the genesis value, on the texts the two logs hash; an injective hash into 64 hexadecimal digits does not exist. Agreement on events and payloads holds only against lists whose payloads are quote-balanced, which the verifier does not check.
- AuditLocking.RefusedExactlyForRepeatedHistory: the same assumption, on the texts of the stored rows and the new one.
- AuditAppend.EveryRunChains: an insert, its trigger check and its wait for another transaction's unique value are one atomic step that is retried; the two clauses of the trigger that take a NULL `prev_hash` are not modelled because the column is never NULL here.
- AuditPaging.ReaderSeesEverything: timestamps are whole numbers that rise with the sequence number, and never fall in the results about ties; `AnyClockCompleteIff` asks only for rising sequence numbers. The cursor's base64 text is the identity.
- JsonUniqueness.RenderUnique: the text of a float is taken as given (number characters with a mark no integer has); lone surrogates and dict keys that are not strings are outside the model.
- JsonEquality.TextIsEqualityAndSpelling: the numeric value of a float's text is a parameter, and NaN is never equal to anything, the shortcut for one and the same object included.
- SseStandard.FramesMeetStandard: frames have one event line and one data line with values that trimming cannot touch; the standard's multi-line data, retry field and byte-order mark are not related to the reader.
- SseStream.Connection.ReadStream: works on characters; UTF-8 decoding across chunks and `JSON.parse` are a parameter, and an exception thrown by the event handler is not modelled.
- ReconnectBackoff.ClosedForm: timers, aborts and the order in which they fire are an arbitrary list of events.
- BulkPricing.AntitoneIff: quantities and prices are whole numbers of one decimal scale, so the smallest order is one unit of it.
- AuditTrigger.TriggerLinksIff: the second half asks that the escrow's hashes differ from each other and from the marker, as the unique constraint and a marker that is no hash give.
- ReconnectStrands.OneStrandIff: follows numbers of connections and timers, not their waits, and one hook whose session stays the same.
- EscrowSafety.ToppedUpPayoutSucceeds: the creator can afford the group, and every account but the contract's ends with nothing or enough; the wallet's choice of fee is a parameter. The extra minimum balance of applications and assets is not modelled.
- EscrowSafety.EveryRunSafe: the contract account cannot be rekeyed or closed, and application update and deletion are not modelled.
- ComplianceRuns.EveryRunPairsRecords: inserting the records a call found missing and committing is one atomic step; format checks on PAN, GSTIN, HSN and purpose codes and the 28-digit decimal context are not modelled.
- Backfill.SecondRunCountsErrors: the sessions of a table have distinct ids, and creation times decide their order without ties; a failed flush that poisons the database session and the insight computation after the loop are not modelled.
- ActivityFeed.ListActivity: timestamps are whole numbers, as the ISO texts of one time zone compare; titles and amounts are not carried.
- EnterpriseRuns.ColumnRefinesPlainStore: submitted documents keep off the five profile keys and updates do not clear a field; what happens otherwise is `ReadsBackIff` and `StaleEntryReturns`. Decimal and float conversions are parameters with a stated round trip, and NaN and infinities are outside it.
- Merkle roots, exports, negotiation, matching, settlement and treasury are not part of this model.
- KYC status labels, wallet linking, stock and activation flags would only add one-branch facts.
