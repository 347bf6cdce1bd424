# OpenPendant firmware: a verified model

A Dafny model of the parts of the pendant's USB firmware where a mistake is expensive, and proofs of what
they are for. `dafny verify dfyconfig.toml` checks all of it.

**Crash-safe storage.** `JournalRules` gives the records of the two-bank control journal and the rules for
their succession, `JournalFlash` the pages and the scan at boot, `JournalWorld` every operation as a step
that may be cut short anywhere, with the theorems over whole runs. `JournalMachine` holds the journal as the
object it is, each method proved to be such a step, and `DharaAdapter` the flash-translation adapter that
checks every lease again. `JournalPages` carries crash consistency down to the bytes of the pages.
`ControlHistory` is the selector over the pages of the initial append-only history. `JournalCodec`,
`ControlRecord`, `OwnedPage` and `VolumeDescriptor` are the byte formats, over `Bytes` and `Crc`. `OwnedPhy` is
the locked NAND command service below.

**Protocols on one core.** `Broker` has one function for each IRQ-locked section of the recording broker and
`BrokerRuns` interleaves them over any number of threads; `BrokerSafety`, `BrokerStream`, `BrokerDelivery`
and `BrokerOverlap` prove what all runs keep, and `BrokerWitness` gives a run that reaches the handler's
fault. `BrokerMachine` is the static struct with its sections as methods and `BrokerCalls` strings them into
the whole entry points. `ResponseCodec` has the responses as bytes. `Admission` interleaves the single
flag accesses by which microphone, pairing and recovery exclude one another; `AdmissionMachine` holds the
flags.

**Fixed NAND experiments and their wire.** `WriteRate` is the write-rate experiment with its budgets,
acknowledgements and restoration, `ObjectRecovery` the recover-only run of the public object, `BackupWire`
the framed transport of a block to a host.

**Small machines.** `PcmStore`, `Gesture` and `FrameVariance`.

Ports, clocks, hooks, hosts and chips are arbitrary answers throughout; power may fail at any point of the
journal's operations.

One property that the code suggests does not hold under arbitrary preemption. The handler of the delivery work
item latches a fault when it finds nothing to deliver, as if that could not happen. Between the section that
takes the item off and the section that starts the delivery another thread may put the item on again, and the
second handler then finds the delivery done. The model keeps the code as it is, gives such a run, and proves
that this overlap decides. The overlap needs the thread of the work item to be preempted in that gap, where
nothing blocks; on a cooperative work queue the start directly follows, and then the fault is proved
unreachable.

## Model

| member | source | states |
|---|---|---|
| JournalWorld.CrashConsistency | usb_firmware/src/owned_control_journal.c:175-250 | After any run of operations, power losses, partly done erases and torn or complete programs since provisioning, boot selects the last acknowledged root or the single root in flight, which is a permitted successor of it; never an older root and never a conflict |
| JournalWorld.AcknowledgedMeansDurable | usb_firmware/src/owned_control_journal.c:223-250 | While no fault is latched, what boot would recover from flash is exactly the root held in RAM, and it is the acknowledged one |
| JournalWorld.LeaseIdsAreUnique | usb_firmware/src/owned_control_journal.c:316-345 | Over every run, across boots and crashes, no erase or program lease ID is handed out twice |
| JournalWorld.RootsNeverRegress | usb_firmware/src/owned_control_journal.c:137-162 | No operation and no boot lowers the epoch or the lease high water or forgets a retirement of the acknowledged root |
| JournalWorld.ProposalsAreAccepted | usb_firmware/src/owned_control_journal.c:223-250 | Whatever record any operation proposes from a reachable state passes both syntax and transition, and its target page reads blank, so with a working digest provider the CONFLICT exits of publish are unreachable |
| JournalWorld.PageReportsAreHistory | usb_firmware/src/owned_control_journal.c:305-315 | UNUSED means that no lease for the page was handed out from the block's reservation; COMMITTED means that exactly the reported lease was resolved |
| JournalWorld.ColdBootReports | usb_firmware/src/owned_control_journal.c:305-315 | After a cold boot nothing is UNUSED, and a COMMITTED page was resolved before the power loss and stands in the recovered record |
| JournalWorld.RunKeeps | usb_firmware/src/owned_control_journal.c:251-381 | The journal invariant (authority of the flash, disjoint ranges, working blocks refining the current ones, issued IDs below the high water) holds after every run from provisioning |
| JournalWorld.EraseKeeps | usb_firmware/src/owned_control_journal.c:330-338 | Acquiring an erase lease keeps the invariant, whatever happens to its publication |
| JournalWorld.ProgramKeeps | usb_firmware/src/owned_control_journal.c:339-344 | Acquiring a program lease keeps the invariant; its ID was never issued before |
| JournalWorld.ResolveKeeps | usb_firmware/src/owned_control_journal.c:346-359 | Resolving a lease keeps the invariant, whatever happens to its publication |
| JournalWorld.HistoryKeeps | usb_firmware/src/owned_control_journal.c:360-368 | Publishing the working blocks keeps the invariant, whatever happens to the publication |
| JournalWorld.RetireKeeps | usb_firmware/src/owned_control_journal.c:369-381 | Retiring a block keeps the invariant, whatever happens to the publication |
| JournalWorld.RebootKeeps | usb_firmware/src/owned_control_journal.c:175-210 | A boot after any power loss re-establishes the invariant from flash alone |
| JournalWorld.FailedPublish | usb_firmware/src/owned_control_journal.c:235-250 | A publication cut short at any point leaves the flash standing for the old root or for the new one, and the journal faulted |
| JournalFlash.BootRecovers | usb_firmware/src/owned_control_journal.c:175-210 | From every flash that has an authoritative bank for a root (and anything erased in part in the other), the two-bank scan selects that root |
| JournalFlash.SwitchKeepsAuthority | usb_firmware/src/owned_control_journal.c:223-250 | The first page of a freshly erased bank moves authority to it |
| JournalFlash.DamageKeepsAuthority | usb_firmware/src/owned_control_journal.c:211-222 | Any partial erase of the disposable bank leaves authority where it is |
| JournalFlash.TornTailKeepsAuthority | usb_firmware/src/owned_control_journal.c:175-210 | A torn page after the last record of the authoritative bank leaves authority where it is |
| JournalFlash.AuthorityIsUnique | usb_firmware/src/owned_control_journal.c:195-209 | A flash is authoritative for at most one root |
| JournalRules.ErasePublishes | usb_firmware/src/owned_control_journal.c:330-337 | The candidate of an erase lease is well formed and a permitted step: its range lies above the high water, disjoint from every other |
| JournalRules.ResolvePublishes | usb_firmware/src/owned_control_journal.c:351-355 | The candidate of a resolved erase is well formed and a permitted step |
| JournalRules.HistoryPublishes | usb_firmware/src/owned_control_journal.c:360-368 | The candidate that takes over the working blocks is well formed and a permitted step |
| JournalRules.RetirePublishes | usb_firmware/src/owned_control_journal.c:374-379 | The candidate of a retirement is well formed and a permitted step |
| JournalRules.ReconcilePublishes | usb_firmware/src/owned_control_journal.c:264-274 | The candidate of a reconciliation is well formed and a permitted step |
| JournalRules.ActivatePublishes | usb_firmware/src/owned_control_journal.c:275-283 | The candidate of the activation is well formed and a permitted step |
| JournalMachine.ControlFlash.Erase | usb_firmware/src/owned_control_journal.c:211-216 | An erase, whatever it answers, may leave any pages kept and any torn and the rest of the bank blank |
| JournalMachine.ControlFlash.Program | usb_firmware/src/owned_control_journal.c:239-243 | A program may leave the page as it was, torn or written |
| JournalMachine.Journal.EraseFresh | usb_firmware/src/owned_control_journal.c:211-222 | Erases a bank and accepts it only if all 64 raw pages read blank; otherwise the journal faults and the bank holds a partial erase |
| JournalMachine.Journal.Publish | usb_firmware/src/owned_control_journal.c:223-250 | In-place publication is the publication of the model, for the outcome it reports: checks, recycling, consuming the tail, program, read-back |
| JournalMachine.Journal.Provision | usb_firmware/src/owned_control_journal.c:251-263 | Refused without any change once there is a root; otherwise a completed provisioning ends in exactly the first world of the model, and one that fails leaves the journal faulted and not booted |
| JournalMachine.Journal.Reconcile | usb_firmware/src/owned_control_journal.c:264-274 | In-place reconciliation is the step of the model |
| JournalMachine.Journal.Activate | usb_firmware/src/owned_control_journal.c:275-283 | In-place activation is the step of the model |
| JournalMachine.Journal.Acquire | usb_firmware/src/owned_control_journal.c:316-345 | In-place acquisition is the step of the model, and the lease it returns is the one in flight |
| JournalMachine.Journal.Resolve | usb_firmware/src/owned_control_journal.c:346-359 | In-place resolution is the step of the model; a foreign lease faults |
| JournalMachine.Journal.HistorySync | usb_firmware/src/owned_control_journal.c:360-368 | In-place history publication is the step of the model |
| JournalMachine.Journal.Retire | usb_firmware/src/owned_control_journal.c:369-381 | In-place retirement is the step of the model |
| JournalMachine.Journal.Boot | usb_firmware/src/owned_control_journal.c:175-210 | The in-place scan and choice of ocj_boot are the reboot of the model, with the same no-root and conflict answers whenever every page could be read; a faulted or booted journal is left as it is |
| JournalMachine.Journal.ScanOne | usb_firmware/src/owned_control_journal.c:182-194 | The page loop over one bank computes the bank's scan: gap, broken chain, highest epoch, first and last record |
| DharaAdapter.GrantsPassTheAdapter | usb_firmware/src/owned_dhara.c:86-120 | Every lease a journal in a reachable state grants passes the adapter's independent range, sequence, high-water and consumed-bit checks, and the adapter's books still agree afterwards |
| DharaAdapter.UnusedCanBeLeased | usb_firmware/src/owned_dhara.c:188-201 | A page reported UNUSED is granted a program lease without faulting the journal |
| DharaAdapter.ResolveKeepsBooks | usb_firmware/src/owned_dhara.c:132-140 | Resolving keeps the adapter's books in agreement with the journal |
| DharaAdapter.RetireKeepsBooks | usb_firmware/src/owned_dhara.c:154-174 | Retiring keeps the adapter's books in agreement with the journal |
| DharaAdapter.HistoryKeepsBooks | usb_firmware/src/owned_dhara.c:396-408 | Making the working blocks durable keeps the adapter's books in agreement and changes no block |
| DharaAdapter.OwnedDhara.Acquire | usb_firmware/src/owned_dhara.c:86-120 | Acquisition through a real journal object, between the adapter's own looks at its clock, keeps agreement; it never fails because the two disagree, and a lease that comes late is in the books |
| DharaAdapter.OwnedDhara.MutationResult | usb_firmware/src/owned_dhara.c:121-141 | It succeeds exactly on a done operation whose lease could be resolved in time; a media failure that does not fault has retired the block; a transport error faults; agreement is kept |
| DharaAdapter.OwnedDhara.EraseBlock | usb_firmware/src/owned_dhara.c:175-187 | An erase keeps agreement; succeeding, it has added its block to the writable ones and nothing else changed; if it neither succeeds nor faults, exactly its block has been retired |
| DharaAdapter.OwnedDhara.ProgramPage | usb_firmware/src/owned_dhara.c:188-209 | A program succeeds only on a page reported UNUSED and keeps agreement and the writable blocks; if it neither succeeds nor faults, exactly its block has been retired |
| DharaAdapter.OwnedDhara.Grant | usb_firmware/src/owned_dhara.c:345-353 | Write authority is for exactly what the journal's current active root says; a refused grant keeps none, and it never finds the journal behind the books |
| DharaAdapter.OwnedDhara.Format | usb_firmware/src/owned_dhara.c:354-370 | When a format succeeds every block is retired or writable from its first page on, and the books agree |
| DharaAdapter.OwnedDhara.Sync | usb_firmware/src/owned_dhara.c:398-408 | After any calls of the translation library a successful sync has made every verified page part of the journal's current root |
| BrokerSafety.ActorsAndReferencesBalance | usb_firmware/src/recording_ble.c:49-83 | Over every interleaving of any number of threads: the actor count is the number of sections in flight, the underflow branch is never taken, connection references are one per session plus those threads still owe, and epochs count up without repetition |
| BrokerSafety.QuietMeansBalanced | usb_firmware/src/recording_ble.c:167-209 | When all threads have returned there are no actors, exactly one reference if and only if a session is active, and no section is half done |
| BrokerSafety.SessionsEndProperly | usb_firmware/src/recording_ble.c:257-263 | Any step that ends a session found it revoked, with no actors and nothing pending, and, once anything was submitted, is the successful acknowledgement of the retirement of this very epoch |
| BrokerSafety.StepSafe | usb_firmware/src/recording_ble.c:48-77 | Every step of every thread keeps the counting invariant and treats the session properly |
| BrokerDelivery.NoBadDelivery | usb_firmware/src/recording_ble.c:137-160 | As long as no schedule is taken between the handler's dequeue and the start of its delivery, the bad-delivery fault is never latched and a queued item always has something to deliver |
| BrokerDelivery.PromptNeverFaults | usb_firmware/src/recording_ble.c:137-147 | A run in which every taking of the item is directly followed by the start of its delivery takes no schedule in the gap and never latches the fault: so it is where the work item's thread is not preempted there |
| BrokerWitness.BadDeliveryHappens | usb_firmware/src/recording_ble.c:137-160 | Under arbitrary preemption the fault is reachable: a run of three threads with honest clocks and hooks latches it and nothing else |
| BrokerOverlap.OverlapDecides | usb_firmware/src/recording_ble.c:137-160 | Exact condition: after one more step of a run without such an overlap, the fault is out of reach of every continuation that schedules nothing more if and only if that step was not an overlap |
| BrokerOverlap.OverlapCanFault | usb_firmware/src/recording_ble.c:148-160 | From every first overlap an explicit continuation of nine steps latches the fault |
| BrokerStream.StreamsAreExact | usb_firmware/src/recording_ble.c:220-242 | Over every interleaving, including retries for want of buffers and revocation: the enqueued frames tile the request, and an unrevoked request is over exactly when its fragments sum to min(maximum, total - offset) |
| BrokerStream.FramesAreConsecutive | usb_firmware/src/recording_ble.c:226-233 | Each enqueued fragment starts where the previous ended, carries 1 to 192 bytes, stays within the request and reports the same total |
| ResponseCodec.StreamFrameIff | usb_firmware/src/recording_ble.c:84-102 | On bytes: a stream frame is good if and only if its header, nonce, offset and length are those of the request, its total is a possible container beyond the offset, and the request is valid |
| ResponseCodec.VerdictIff | usb_firmware/src/recording_ble.c:224-233 | The verdict on the bytes of any response, with the offset moved in 32 bits and the maximum in 16, is the verdict of the broker model on what those bytes say |
| ResponseCodec.BuiltIsValid | usb_firmware/src/durable_ble_codec.c:82-99 | What the codec builds for a stream request passes that test and gives back its offset, its total and its data |
| ResponseCodec.Reassembled | usb_firmware/src/durable_ble_codec.c:91-98 | Frames that tile a request, put together, are the object's bytes from the requested offset on |
| ResponseCodec.StreamDelivers | usb_firmware/src/recording_ble.c:220-242 | Over every interleaving the data enqueued for a stream is a piece of the object from the requested offset on, and when an unrevoked request is over it is min(maximum, total - offset) bytes of it |
| BrokerMachine.RecordingBroker.OpenSection | usb_firmware/src/recording_ble.c:172-188 | The first locked section of a command, field by field, is the step the interleavings use |
| BrokerMachine.RecordingBroker.CommitSection | usb_firmware/src/recording_ble.c:191-195 | The section that commits the request is that step; it refuses and revokes when anything changed meanwhile |
| BrokerMachine.RecordingBroker.SubmittedSection | usb_firmware/src/recording_ble.c:197-204 | The section after submit is that step, including the contradictory-completion fault |
| BrokerMachine.RecordingBroker.CompleteEndSection | usb_firmware/src/recording_ble.c:234-241 | The section that stages a response is that step |
| BrokerMachine.RecordingBroker.KickSection | usb_firmware/src/recording_ble.c:61-75 | The section of kick is that step: it clears, asks for retirement or does nothing |
| BrokerMachine.RecordingBroker.LeaveSection | usb_firmware/src/recording_ble.c:76-77 | The section of leave is that step |
| BrokerMachine.RecordingBroker.ScheduleSection | usb_firmware/src/recording_ble.c:148-152 | The section that takes a schedule is that step |
| BrokerMachine.RecordingBroker.HandlerSection | usb_firmware/src/recording_ble.c:137-145 | The handler's section is that step, including its fault branch |
| BrokerMachine.RecordingBroker.DeliverEndSection | usb_firmware/src/recording_ble.c:122-135 | The last section of a delivery is that step: retry, next fragment, or end of the request |
| BrokerMachine.RecordingBroker.RetiredSection | usb_firmware/src/recording_ble.c:257-263 | The section of the retirement report is that step |
| BrokerMachine.RecordingBroker.PollSection | usb_firmware/src/recording_ble.c:276-278 | The section of the poller is that step |
| BrokerMachine.RecordingBroker.LiveSection | usb_firmware/src/recording_ble.c:78-83 | The liveness test answers exactly when the session is this one, unrevoked, unexpired and unfaulted, on a clock that did not run back |
| BrokerCalls.BrokerThread.Command | usb_firmware/src/recording_ble.c:167-209 | The whole command, with other threads' sections anywhere between its own, walks through the places of the interleavings section by section and moves references exactly where they do; OK if and only if the submission was accepted, BUSY if and only if the first section found it so |
| BrokerCalls.BrokerThread.Complete | usb_firmware/src/recording_ble.c:220-242 | The whole completion walks through those places; REFUSED if and only if nothing waited for it, FAULT if and only if the frame was bad |
| BrokerCalls.BrokerThread.Deliver | usb_firmware/src/recording_ble.c:104-136 | The whole delivery walks through those places: three liveness tests around two hooks, the notification, a last test, and done, retry or revoked |
| BrokerCalls.BrokerThread.RunItem | usb_firmware/src/recording_ble.c:137-146 | The work item walks through those places: dequeue, deliver, leave |
| BrokerCalls.BrokerThread.ScheduleCall | usb_firmware/src/recording_ble.c:148-160 | Scheduling walks through those places and leaves once, also when the work queue refuses |
| BrokerCalls.BrokerThread.KickCall | usb_firmware/src/recording_ble.c:61-75 | Kick walks through those places: the session's reference is dropped or its retirement asked for, outside the lock |
| BrokerCalls.BrokerThread.Retired | usb_firmware/src/recording_ble.c:257-263 | The retirement report drops the session's reference exactly when it ends the session |
| BrokerCalls.BrokerThread.Poll | usb_firmware/src/recording_ble.c:271-278 | The poll schedules a stream's delivery and then kicks |
| BrokerCalls.EpochsAreNamed | usb_firmware/src/recording_ble.c:61-73 | Over every run an active session's epoch is not zero, so kick may use zero for no epoch |
| Admission.OneAtATime | usb_firmware/src/mic_commands.c:29-82 | Over every interleaving of single accesses to the flags (what runs under the enrollment lock is one), at most one of these holds: admitted microphone or external work, a pairing window that is open, pending or closing, an admitted recovery or restart |
| Admission.NothingLeaks | usb_firmware/src/ble_security.c:153-191 | When every call has returned, no claim is left behind; only an open window can be |
| Admission.OneCapturePerArm | usb_firmware/src/mic_commands.c:263-323 | Captures never outnumber arms: a one-shot permission is spent at most once |
| Admission.PasskeyNeedsWindow | usb_firmware/src/ble_security.c:235-253 | A passkey is shown only while its own connection is pending in an open window of a device without owner |
| Admission.OwnershipChanges | usb_firmware/src/ble_security.c:261-291 | An owner appears only by completing the pending pairing of an unexpired window with the code shown, or goes by local replacement, and in both cases nobody else is admitted |
| Admission.StepSafe | usb_firmware/src/main.c:743-766 | Every single access of every thread keeps the exclusion invariant |
| AdmissionMachine.Gate.AskPairing | usb_firmware/src/mic_commands.c:273-275 | The look of a claimed request at pairing is the step the interleavings use |
| AdmissionMachine.Gate.Admit | usb_firmware/src/mic_commands.c:276-281 | The last access of a request, which takes, clears or looks at the one-shot, is the step the interleavings use |
| AdmissionMachine.Gate.OpenWindow | usb_firmware/src/ble_security.c:448-459 | Opening a window under the lock is that step, and succeeds exactly when nothing else is claimed |
| AdmissionMachine.Gate.FinishEnrollment | usb_firmware/src/ble_security.c:172-186 | Closing or expiring an enrollment is that step; a stale deadline or a foreign connection changes nothing |
| AdmissionMachine.Gate.ConnectedSection | usb_firmware/src/ble_security.c:322-327 | Admission of a new connection is that step |
| AdmissionMachine.Gate.CompleteSection | usb_firmware/src/ble_security.c:264-276 | Completion commits the owner and detaches the window in one step, or denies pairing for this boot |
| AdmissionMachine.Gate.ReplaceSection | usb_firmware/src/ble_security.c:419-433 | The last lock of the local replacement is that step |
| AdmissionMachine.Gate.ClaimRecovery | usb_firmware/src/main.c:757-760 | Claiming the recovery flag is that step |
| WriteRate.Experiment.Run | usb_firmware/src/nand_write_rate.c:250-267 | For every chip, observer and clock: mutations only where allowed, at most 1707 transfers with no budget ever refusing, at most 19 events and one WRDI; a hash that was begun is given back exactly once, and failing to is a RESTORE_ERROR; at the end the registers are restored by read-back, or were never changed, or FAULT is set; a verified run has 19 events and between 670 + 2 * WRDI and 1707 transfers |
| WriteRate.Experiment.DataRun | usb_firmware/src/nand_write_rate.c:210-226 | The data phase stays within 1699 transfers and, when it succeeds, has read, programmed and preserved everything in order |
| WriteRate.Experiment.Preimage | usb_firmware/src/nand_write_rate.c:148-170 | Success means that all 64 rows were read twice as pinned, in row order, within the transfer budget |
| WriteRate.Experiment.Program | usb_firmware/src/nand_write_rate.c:184-209 | One page is enabled, loaded and executed, each after its own acknowledgement, then read back twice equal to its pattern; between 17 and 62 transfers |
| WriteRate.Experiment.Restore | usb_firmware/src/nand_write_rate.c:227-241 | At most 8 transfers; restored means A0, B0 and C0 were read back at rest; exactly 6 + 2 * WRDI transfers when both settings were dirty |
| WriteRate.Experiment.Ready | usb_firmware/src/nand_write_rate.c:108-123 | Polls at most 8 or 32 times and reports ready only for an observed status with busy, WEL and both failure bits clear |
| WriteRate.Experiment.Step | usb_firmware/src/nand_write_rate.c:69-100 | One transfer counts when it started, books what it changed, and is refused only at the cap |
| WriteRate.Experiment.Announce | usb_firmware/src/nand_write_rate.c:55-66 | An event is counted before its observer answers, and marked acknowledged only on success |
| WriteRate.MutationsWait | usb_firmware/src/nand_write_rate.c:210-219 | In an ordered log no WREN, LOAD or EXEC comes before each of the 64 rows was read twice as pinned and the old object was validated |
| WriteRate.ExecFollowsItsAck | usb_firmware/src/nand_write_rate.c:189-195 | Every EXEC follows its own acknowledged BEFORE_EXEC, with no other EXEC between |
| WriteRate.EachPageOnce | usb_firmware/src/nand_write_rate.c:184-209 | There are at most two EXECs, each page once, in row order |
| ObjectRecovery.Recovery.Run | usb_firmware/src/nand_public_object.c:191-210 | A recover-only run starts nothing but reads, at most 46 of them, and no budget refuses; verified, it used at least 25, ended at rest by read-back, and saw the qualified pattern and exactly the DATA and COMMIT pages the builders write |
| ObjectRecovery.Recovery.DataRun | usb_firmware/src/nand_public_object.c:131-144 | At most 42 transfers, at least 21 on success, and then the three pages were seen as expected |
| ObjectRecovery.Recovery.PairRead | usb_firmware/src/nand_public_object.c:106-117 | Both pages equal the built ones and validate as a matching pair |
| ObjectRecovery.Recovery.ReadPage | usb_firmware/src/nand_public_object.c:97-105 | Between 5 and 12 transfers for a page |
| ObjectRecovery.Recovery.Restore | usb_firmware/src/nand_public_object.c:164-185 | At most ten transfers; restored means that A0, B0 and C0 were read back at rest; after a run of reads only it is at most four more reads |
| OwnedPhy.Service.Read | usb_firmware/src/nand_owned_phy.c:142-169 | OK leaves the chip at rest by read-back and the page that was fetched from the admitted row; a denied call issues nothing; a fault is sticky |
| OwnedPhy.Service.Mutation | usb_firmware/src/nand_owned_phy.c:200-237 | OK or MEDIA ends with A0 = 0x7c, B0 = 0x10 observed and WEL and busy clear; at most one EXECUTE or ERASE, on the admitted row, a program loaded with the given page; a checked OK has a fresh read-back equal to the input, or 64 raw pages of FF; denied means no transfer |
| OwnedPhy.Service.Open | usb_firmware/src/nand_owned_phy.c:126-141 | Opening issues no mutation and, when OK, leaves the chip at rest |
| OwnedPhy.Service.Close | usb_firmware/src/nand_owned_phy.c:238-243 | Closing checks the rest state, issues no mutation, and closes only then |
| OwnedPhy.Service.VerifyProgram | usb_firmware/src/nand_owned_phy.c:170-181 | Success means a fresh read of the row equal to the given page |
| OwnedPhy.Service.VerifyErase | usb_firmware/src/nand_owned_phy.c:182-199 | Success means that all 64 raw pages of the block were freshly read as FF |
| OwnedPhy.Service.Ready | usb_firmware/src/nand_owned_phy.c:72-92 | Ready means an observed status with both busy bits clear; otherwise the service faults; no array operation is issued |
| OwnedPhy.Service.Setting | usb_firmware/src/nand_owned_phy.c:63-71 | On success a setting is one of the legal values, was read back as written, and left the status clean; only its own register changed |
| OwnedPhy.DisciplinedAt | usb_firmware/src/nand_owned_phy.c:200-214 | Every EXECUTE or ERASE came right after: the array unlocked and read back so, a grant for exactly this operation and row, WREN with the latch seen set and the chip ready, for a program the page loaded, and the grant once more |
| ControlHistory.Select | usb_firmware/src/owned_control_record.c:191-268 | From pages and descriptor: CLEAN_CANDIDATE if and only if the builder wrote the pages of positions 0 to n-1 for a history of records numbered 1 to n, hash-linked, each a permitted step, ending active without lease, with no control bank retired, and all other pages are proven unused; NO_CANDIDATE if and only if all pages are; RECOVER_READ_ONLY otherwise; with exactly the reasons, latest place and digest, pending lease and its block, retirements and quarantine the evidence gives |
| ControlHistory.CleanIffBuilt | usb_firmware/src/owned_control_record.c:214-268 | The evidence reads as a clean history if and only if there are records whose built pages it holds |
| ControlHistory.PagesTell | usb_firmware/src/owned_control_record.c:165-190 | In a history of built pages no record is read-only, lease IDs increase, and a lease is held until it is resolved as verified complete |
| ControlRecord.ValidIffBuilt | usb_firmware/src/owned_control_record.c:136-152 | A page validates at a bank and slot if and only if building the record it reads as, which is valid and names that place, writes this very page |
| ControlRecord.BuiltIsValid | usb_firmware/src/owned_control_record.c:113-131 | What the builder writes for a record validates at the record's place and gives back that record and its digest |
| ControlRecord.BuildingIsInjective | usb_firmware/src/owned_control_record.c:84-97 | Two records with one page are equal |
| ControlRecord.OnePlace | usb_firmware/src/owned_control_record.c:140-141 | A page validates at one place only |
| ControlHistory.LeaseIdsIncrease | usb_firmware/src/owned_control_record.c:165-176 | In a clean history lease IDs strictly increase |
| ControlHistory.LeaseIsCompleted | usb_firmware/src/owned_control_record.c:178-190 | In a clean history every lease is held unchanged until a later record resolves it as verified complete |
| ControlHistory.NeverReadOnly | usb_firmware/src/owned_control_record.c:165-171 | In a clean history no record was ever read-only |
| ControlHistory.LeaseAvoidsRetired | usb_firmware/src/owned_control_record.c:174-177 | A lease never names a block retired before |
| ControlHistory.Gather | usb_firmware/src/owned_control_record.c:214-233 | The first pass finds the latest valid record, every duplicate sequence and the union of all retirement evidence |
| ControlHistory.CheckPlaces | usb_firmware/src/owned_control_record.c:242-251 | The second pass finds exactly the records out of place, unlinked or not a permitted step |
| JournalCodec.DecodedIsCanonical | usb_firmware/src/owned_control_journal.c:74-100 | If a page decodes, it is byte for byte what the encoder writes for the decoded snapshot |
| JournalCodec.EncodedDecodes | usb_firmware/src/owned_control_journal.c:55-73 | What the encoder writes for a well-formed snapshot decodes to that snapshot and its digest |
| JournalCodec.EncodingIsInjective | usb_firmware/src/owned_control_journal.c:55-73 | Two well-formed snapshots with one page are equal, place included |
| JournalCodec.EncodedElsewhere | usb_firmware/src/owned_control_journal.c:74-100 | A page encoded for one bank and slot is a conflict at every other |
| JournalCodec.NoRecordIff | usb_firmware/src/owned_control_journal.c:80-84 | Decoding finds no record if and only if the page is not the legacy journal's and its frame does not hold, whatever the place |
| JournalPages.DecodersAgree | usb_firmware/src/owned_control_journal.c:74-100 | The decoder on bytes and the decoder of the crash model agree on every page that stands for a cell: erased, torn, or encoded for its place or another |
| JournalPages.TornIff | usb_firmware/src/owned_control_journal.c:80-84 | A page of bytes is a torn cell, passed over at every place, if and only if it does not bear the legacy name and its name, version, sum, padding and digest do not all hold |
| JournalPages.BootsAgree | usb_firmware/src/owned_control_journal.c:175-210 | The boot scan over two banks of bytes gives the answer of the crash model's scan |
| JournalPages.PagesRecover | usb_firmware/src/owned_control_journal.c:175-250 | Crash consistency of bytes: whatever pages a run's flash consists of, booting from them selects the last acknowledged root or the one in flight |
| JournalPages.PagesExist | usb_firmware/src/owned_control_journal.c:55-73 | Every run's flash does consist of pages: each record it programmed fits the encoding |
| OwnedPage.ValidIffBuilt | usb_firmware/src/owned_page.c:128-155 | A page validates under a binding if and only if sealing its payload under that binding writes that very page (and a commit's payload reads as a commit) |
| OwnedPage.DataRoundTrip | usb_firmware/src/owned_page.c:99-109 | Validation gives back the payload a DATA page was built from |
| OwnedPage.MatchIffBuilt | usb_firmware/src/owned_page.c:167-206 | A commit page matches a data page if and only if the commit builder, given that data page, writes that commit page |
| OwnedPage.CommitPinsData | usb_firmware/src/owned_page.c:191-206 | Under a collision-free digest one commit page matches at most one data page |
| OwnedPage.PageCrc | usb_firmware/src/owned_page.c:53-61 | The bitwise loop computes the CRC-32 of section 8 of RFC 1952 over the bytes with the header's own sum as zero |
| VolumeDescriptor.DescriptorIffBuilt | usb_firmware/src/owned_volume_descriptor.c:124-168 | A descriptor validates for a volume if and only if the builder writes it for that volume |
| VolumeDescriptor.DecodedIsExpected | usb_firmware/src/owned_volume_descriptor.c:155-166 | What is read back from a valid descriptor is the expected volume |
| VolumeDescriptor.MapIsInjective | usb_firmware/src/owned_volume_descriptor.c:170-190 | Different logical pages have different physical rows |
| VolumeDescriptor.MapAvoidsControl | usb_firmware/src/owned_volume_descriptor.c:170-190 | A mapped row lies in the map block its slot names, below the limit, never in a control block |
| VolumeDescriptor.MapIsTotal | usb_firmware/src/owned_volume_descriptor.c:182-189 | Every logical page of a valid descriptor has a row; the arithmetic guard never refuses it |
| VolumeDescriptor.SpecValid | usb_firmware/src/owned_volume_descriptor.c:54-71 | The nested loops accept exactly the specifications with good identities and distinct, allowed, disjoint blocks |
| Bytes.UnpackOfPack | usb_firmware/src/owned_control_journal.c:55-73 | Packed little-endian fields read back as they were |
| Bytes.PackOfUnpack | usb_firmware/src/owned_control_journal.c:74-100 | Any bytes are the packing of the fields read from them |
| Bytes.WordsIff | usb_firmware/src/owned_volume_descriptor.c:117-120 | A run of bytes reads as a list of 32-bit words if and only if it is that list's bytes |
| BackupWire.Wire.WriteSpans | usb_firmware/src/nand_backup_wire.c:106-127 | Under any partial acceptance what left is a prefix of the spans in order, all of it if and only if the frame boundary is set, within 8192 attempts; otherwise the transport is not used again |
| BackupWire.Wire.WriteSpan | usb_firmware/src/nand_backup_wire.c:110-124 | One span leaves as a prefix, at most 64 bytes a time |
| BackupWire.Wire.ReadExact | usb_firmware/src/nand_backup_wire.c:128-144 | Reads exactly the bytes asked for, as the transport gave them and in order, within the frame's attempts, or fails |
| BackupWire.Wire.ReceiveAck | usb_firmware/src/nand_backup_wire.c:168-198 | Succeeds only if the bytes read are exactly the acknowledgement; anything else stops the data, and the transport stays usable only if the bytes read are exactly the abort of this frame with a reason of 1 to 4, which is kept |
| BackupWire.Wire.FrameHeader | usb_firmware/src/nand_backup_wire.c:154-167 | The header carries the CRC-32 of all body parts together, computed part by part |
| BackupWire.Wire.Emit | usb_firmware/src/nand_backup_wire.c:106-127 | After each frame the output is the planned frames in order, whole but for the last |
| BackupWire.Wire.Handshake | usb_firmware/src/nand_backup_wire.c:208-232 | Once only; success means the line left whole and exactly one HELLO with a non-zero nonce was read |
| BackupWire.Wire.ArmDataDeadline | usb_firmware/src/nand_backup_wire.c:233-245 | Succeeds exactly once, after HELLO, for a deadline within 120000 ms on the wrapping clock |
| BackupWire.Wire.SendBegin | usb_firmware/src/nand_backup_wire.c:251-271 | Success means an admitted call, the fixed BEGIN words and their exact acknowledgement |
| BackupWire.Wire.SendPage | usb_firmware/src/nand_backup_wire.c:272-303 | A row counts as sent when its frame left whole, and as acknowledged, and summed, only on the exact acknowledgement; rows_acked <= rows_sent <= rows_acked + 1 always |
| BackupWire.Wire.Finish | usb_firmware/src/nand_backup_wire.c:319-351 | The quarantine lifts if and only if this call succeeds as clean: 64 rows acknowledged in order, an END carrying the CRC-32 of their concatenation, and its exact acknowledgement |
| BackupWire.HeaderIsExact | usb_firmware/src/nand_backup_wire.c:145-149 | A header that passes the check is byte for byte the header its fields make |
| BackupWire.CrcIsCrc32 | usb_firmware/src/nand_backup_wire.c:41-55 | The running sum, finished, is the CRC-32 of the bytes |
| Crc.TwoNibbles | usb_firmware/src/mic_pcm_store.h:161-165 | Two table steps are eight bit steps, for every register and byte |
| Crc.NibbleCrc | usb_firmware/src/mic_pcm_store.h:152-167 | The nibble-table loop computes the CRC-32 of section 8 of RFC 1952 on every input |
| Crc.CrcUpdate | usb_firmware/src/nand_backup_wire.c:41-50 | The bitwise loop continues a register over further bytes |
| Crc.RegisterSplit | usb_firmware/src/nand_backup_wire.c:299-300 | Summing rows one after the other is summing their concatenation |
| PcmStore.Store.Append | usb_firmware/src/mic_pcm_store.h:128-147 | A frame is appended in little-endian order, or nothing changes but by expiry |
| PcmStore.Store.Seal | usb_firmware/src/mic_pcm_store.h:169-181 | Sealing records the CRC-32 of exactly the appended bytes |
| PcmStore.Store.Take | usb_firmware/src/mic_pcm_store.h:183-208 | Successful takes concatenate to a prefix of what was appended, all of it at DRAINED; exported bytes are zero, and scrubbed means that the whole buffer is |
| PcmStore.Store.Begin | usb_firmware/src/mic_pcm_store.h:116-126 | Begin wipes first, whatever it answers |
| PcmStore.Store.Expire | usb_firmware/src/mic_pcm_store.h:96-102 | Expiry wipes the whole buffer at the deadline and not before |
| PcmStore.SampleRoundTrip | usb_firmware/src/mic_pcm_store.h:139-143 | The two stored bytes determine the signed sample |
| PcmStore.FrameBytesAt | usb_firmware/src/mic_pcm_store.h:139-143 | Byte k of a stored frame is the low or high byte of sample k / 2 |
| FrameVariance.NumeratorIsPairs | usb_firmware/src/mic_frame_math.h:14-29 | 320 * sum(x^2) - (sum x)^2 is the sum of the squared differences over all pairs, for frames of any length |
| FrameVariance.NumeratorIsNatural | usb_firmware/src/mic_frame_math.h:22-26 | n * sum(x^2) is at least (sum x)^2, so for the moments of a frame the subtraction is never refused |
| FrameVariance.MomentBounds | usb_firmware/src/mic_frame_math.h:17-21 | The moments of a frame of 16-bit samples meet the guard's bounds |
| FrameVariance.AcNumerator | usb_firmware/src/mic_frame_math.h:14-29 | The guarded arithmetic fits 64 bits and succeeds exactly on moments within bounds whose difference is not negative |
| FrameVariance.FrameNumerator | usb_firmware/src/mic_diagnostics.c:447-462 | For every 320-sample frame the loop's moments pass the guard and the result is the sum of squared pairwise differences |
| FrameVariance.Window.Add | usb_firmware/src/mic_diagnostics.c:498-507 | The window accumulates numerators, keeps their maximum, and 25 frames stay below 2^52 |
| Gesture.PressComesFirst | usb_firmware/src/button_gesture.h:14-52 | Each SINGLE or FIVE is preceded by a PRESS with no other event between |
| Gesture.FiveHolds | usb_firmware/src/button_gesture.h:32-46 | FIVE needs exactly five debounced holds of 50 to 1000 ms after its PRESS and comes within 3500 ms of it |
| Gesture.QuietAfterFive | usb_firmware/src/button_gesture.h:25-31 | After FIVE nothing is emitted until 600 ms without a pressed sample |
| Gesture.Button.Sampled | usb_firmware/src/button_gesture.h:14-52 | The in-place update is the step the trace theorems speak of |

## Left out

- BrokerDelivery.NoBadDelivery: stated for the runs without the overlap. `recording_ble.c` reads as if the handler's fault branch could not be taken; under arbitrary preemption it can (BrokerWitness.BadDeliveryHappens), and BrokerOverlap.OverlapDecides shows that the overlap is exactly what decides. The model does not fix the priorities of threads: the overlap needs the thread of the work item to be preempted between `irq_unlock` in line 145 and `irq_lock` in line 107, which a cooperative system work queue, Zephyr's default, rules out (BrokerDelivery.PromptNeverFaults).
- BrokerStream.StreamsAreExact: a response is its offset, total and length, and whether it echoes its request; ResponseCodec.VerdictIff shows that the bytes say exactly that. Pointer checks of the codec are not modelled.
- ResponseCodec.StreamDelivers: that the bytes of each frame are those of the stored object is the backend's part and a hypothesis here; the parser of request frames and the catalog builder are not modelled.
- BrokerMachine.RecordingBroker.OpenSection: the static struct is one record-valued field whose members are replaced in place; hooks are arbitrary answers.
- BrokerCalls.BrokerThread.Command: between two sections the record may be anything with a named epoch, which is more than the other threads can make of it.
- BrokerSafety.StepSafe: the work item may run on any thread, which allows more runs than the one system work queue does.
- Admission.StepSafe: the bond table is one number together with `owners`; only the holder of an external reservation gives it back; a pairing section that runs under the enrollment lock and looks at the microphone and recovery flags there is one step.
- JournalWorld.CrashConsistency: bitmaps are sets of slots and pages, digests are numbers of which zero stands for all zero bytes, and a torn page is one that does not decode. The clock, the admission hook and the fault latch are arbitrary answers.
- JournalMachine.Journal.Publish: the re-entrancy flag, pointer overlap checks and the wiping of buffers are not modelled; a failing digest provider shows as the CONFLICT the code returns.
- JournalCodec.EncodedDecodes: CRC and SHA-256 are given functions of the body; the buffer is written as a value, not in place.
- OwnedPage.ValidIffBuilt: builders and validators work on values, not in place; the digest provider answers each body with one digest or none; overlap checks and wiping are not modelled.
- VolumeDescriptor.DescriptorIffBuilt: works on values, as the page format does.
- ControlHistory.Select: pages are values; the provider answers each body with one digest or none, and pointer overlap and the wiping of the workspace are not modelled.
- DharaAdapter.OwnedDhara.Acquire: the mode that leases one ID per operation, the bytes of the page that is programmed and page reads are not modelled; the translation library is any sequence of erases and programs; hashing and both clocks are arbitrary answers.
- OwnedPhy.Service.Mutation: the ECC code of a read is an arbitrary answer, a page is one value, and the shared transmit and receive buffers are not modelled.
- WriteRate.Experiment.Run: page contents are compared as values, so hashes are taken as collision-free; timing words, cycle counters and elapsed times are not modelled; marker-byte and blank checks are part of the comparison or arbitrary answers.
- ObjectRecovery.Recovery.Run: only the recover-only mode; the writing mode has the same shape as the write-rate experiment.
- BackupWire.Wire.ReceiveAck: deadlines, and whether bytes are still pending, are arbitrary answers.
- The write-rate, read-rate and qualification wires are near copies of the backup wire and are not modelled.
- Register, GPIO, SPI, PDM, USB and shell code, Bluetooth plumbing, settings and cryptography are foreign or plain input and output.
- Battery, host permit, device preferences, telemetry and the encrypted segment header are short guard chains that would add only easy members.
