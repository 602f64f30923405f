# Direct Transfer: a verified model

Direct Transfer sends files between two named peers over TCP. This project models its resumable
transfer protocol (version 3) and the code around it in Dafny 4.11, and proves what the protocol is
for. `dafny verify dfyconfig.toml` checks everything.

**The protocol.** `Receiver.dfy` is the receiving side as a step machine whose inputs are arbitrary:
it validates every header, writes into hidden partials, verifies, commits under a free name and
records completion. `System.dfy` adds the sender and a FIFO channel; a session can be cut at any step,
even under the receiver's own send, and be followed by another, with torn writes, restarts, crashes
inside `prepare` and other people's files in between. Over all of that:

- *Safety* (`ReceiverRuns`, `System`): each file ID is committed at most once per receiver process;
  whatever is answered for has the offered size and digest; COMPLETE at the sender means a verified
  file at the receiver; `session_complete` is sent only when that holds for the whole offer. The peers
  need not be honest, and the source may change while it is sent.
- *Reactions* (`Reactions`, `System`): what each side does on everything it can meet, errors included:
  which frame is awaited, what any other input does to the record, what is answered, written and logged.
- *Resuming* (`Resume`, `Resumption`): `prepare` keeps exactly the partials that can be continued, and over
  any sessions, restarts and crashes the bytes received stay until the file has been answered for.
- *Fidelity* (`Fidelity`): with an unchanged source, partials stay prefixes of it and committed files
  are exactly it.
- *Duality and liveness* (`Lockstep`, `Twins`, `Liveness`, `Sessions`): a receiver that has caught up
  with the channel stands exactly where the sender stands. After any earlier sessions, cut wherever, the
  next uninterrupted session ends in `session_complete`, under every scheduler, if and only if every
  record at the receiver was ready for its file when the session was opened.
- *The loops themselves* (`Chunks`): both chunk loops as loops over mutable records, tied to the machine.

**Around it.** `Lifecycle` (the guarded status table), `Worker` (the sender's retry worker), `History`
(the store's statements and the fold over runtime records), `Columns` (what each column means over any
sequence of writes), `Persistence` (the persisting loop), `Claims` (what rows may claim over whole runs and
restarts), `Naming` and `Commit` (collision search, two ways of exposing a file), `Framing`, `Protocol`
(frame validation and resume negotiation), `Inbox` (approval queue), `Decimal` and `Endpoints`
(addresses), `Handshake` and `Agreement` (authentication over a network that may replay, alter or invent
messages).

**Form.** Code that changes things step by step is a class or a method with loops, proved against
functions on values: `TransferInfo`, `Socket`, `PartialTransferStore`, `Directory`, `HistoryStore`,
`TransferLog`, `IncomingRequestManager`, the chunk loops, the validation loops, the retry worker, the
two handshake procedures. Properties over runs are lemmas about those functions. Sessions that may be
cut anywhere are step machines, because a method cannot be cut.

## What the code does not do

These are properties one might expect that the code does not have. Each has a run in which it fails, and
the exact condition under which the code does behave.

- *The retry worker can die on its own request.* `set_status` raises a ValueError for a transition
  outside its table, and no handler of the worker catches that. A peer that is offline on the first
  attempt leaves the whole batch in PENDING_APPROVAL and no retry happens, although the module
  documentation (`src/direct_transfer/core/transfer.py:23`) promises retries. Run:
  `Worker.OfflinePeerStrandsTheBatch`. Condition: `Worker.Doom`, exact by `Worker.WorkerCharacterised`.
- *A lost `session_complete` is not recovered.* Once the receiver has finished a batch it deletes the
  partial directory, and its terminal records refuse every further session until it restarts
  (`Sessions.NotReadyIsFinal`). Run, from a new transfer, for every batch that is not empty:
  `Sessions.LostCompletionIsNotRecovered`. Condition: when the session is opened every record is ready,
  that is absent, live, or COMPLETE with its finished file still on record
  (`Sessions.SessionCompletesIffReady`); after a restart it is (`Sessions.ReadyUnlessOver`).
- *A finished row can claim too much.* After a restart an offer under the same transfer ID that lists
  another file, or the same file ID with another content, finds the row complete; and a finished offer
  completes the row although an earlier one was abandoned. Runs: `Claims.ReofferOverclaims`,
  `Claims.ReofferedFileOverclaims` (file rows), `Claims.AbandonedOfferOverclaims`. Condition:
  `Claims.ClaimIsExact`, event by event, and `Claims.HonestIffNothingOverclaims`, over runs.
- *A finished row can be taken back.* An offer turned down overwrites a complete row. Run:
  `Claims.TurnedDownOverwrites`. Condition, over runs: `Claims.CompleteIsKept`.
- *Deleting a row under a running transfer forgets how many files were offered.* Run:
  `Claims.DeletedRowOverclaims`. Condition, over runs: `Claims.DeletionForgetsTheOffer`.
- *A waiter can return a pending request* if its entry is pruned and published again in between. Nothing
  in the program calls `prune`. Run: `Inbox.PruneBreaksWait`. Condition, over every interleaving:
  `Inbox.PendingMeansReplaced`.
- *A valid endpoint does not always survive printing*: an IPv6 zone may hold a closing bracket. Instance:
  `Endpoints.BracketInZone`. Condition: `Endpoints.PrintThenParse`. Endpoints that came from `parse`
  always survive.

## Assumptions

- One receiver handler at a time per transfer ID: handlers share one record
  (`src/direct_transfer/core/transfer.py:216-228`).
- No timeout strikes in the middle of a frame (`src/direct_transfer/core/transfer.py:1169-1181` would drop
  the bytes already read).
- Control frames fit the receiver's bound of 4096 + 64 encrypted bytes, which `Framing.SealedFrameFits`
  turns into 4132 plain bytes; the code lets offers list 1024 files.
- Commit and `mark_completed` are one step. A crash between them leads to a second commit.
- `unlink` succeeds, and so does the `stat` by which a failed replacement recognises its own reservation.
- SHA-256 is a parameter, `sha`, without any law: what is claimed is equality of digests, and equality of
  content where the source is unchanged. In `Agreement` hashing has no collisions.
- A chunk header and the data frame after it are one item of the channel: a loss or a bad frame between
  them ends the file with the same status either way.
- A read of the source returns a full block unless the file ends (`Fidelity.ReadAt`).
- `_persist_runtime_transfers` reads a row and writes it back as one step.
- In `Agreement`: what verifies under an honest key was signed with it, nonces are fresh, canonical JSON is
  injective, base64 decodes what it encoded, the X25519 exchange commutes (section 6.1 of RFC 7748); for
  the key comparison HKDF behaves like a random function (section 2 of RFC 5869). Pairing signs under
  another domain string, so its signatures are no handshake signatures.
- In `Endpoints`: white space, decimal characters and the IPv4 and IPv6 grammars are recognisers with the
  laws in `Lawful` (section 3.2.2 of RFC 3986, section 2.2 of RFC 4291).

## Model

| member | source | states |
|---|---|---|
| Lifecycle.TransferInfo.SetStatus | src/direct_transfer/core/lifecycle.py:75-101 | applied, idempotent or refused; a refusal changes nothing, a terminal status stamps the completion time |
| Lifecycle.TerminalIsAbsorbing | src/direct_transfer/core/lifecycle.py:84-89 | no sequence of requests moves a terminal record |
| Lifecycle.AbsorbingIffTerminal | src/direct_transfer/core/lifecycle.py:21-72 | the absorbing statuses are exactly the terminal ones |
| Lifecycle.UniversalExits | src/direct_transfer/core/lifecycle.py:21-72 | FAILED and CANCELLED, and no other request, are never refused on a live record |
| Lifecycle.LiveCanComplete | src/direct_transfer/core/lifecycle.py:21-72 | from every live status some refusal-free sequence reaches COMPLETE |
| Framing.Socket.RecvExact | src/direct_transfer/utils/crypto.py:48-55 | under every segmentation by recv, exactly the next bytes, short only at the end of the stream |
| Framing.Socket.UnpackFrame | src/direct_transfer/utils/crypto.py:35-45 | one frame or the right error, whatever recv returned piecewise |
| Framing.Socket.ReadAll | src/direct_transfer/utils/crypto.py:35-45 | repeated reading depends on the bytes only, not on how they arrived |
| Framing.ReadersGetWholeFrames | src/direct_transfer/utils/crypto.py:31-55 | of a stream cut at any byte, exactly the payloads sent whole, in order, then an error and never a short frame |
| Framing.FramingRoundTrip | src/direct_transfer/utils/crypto.py:31-45 | reading everything packed returns exactly the payloads |
| Framing.SealedFrameFits | src/direct_transfer/core/protocol.py:45-59 | a sealed frame fits the data bound iff it has at most CHUNK_SIZE + 36 plain bytes, the control bound iff at most 4132 |
| Protocol.ValidateOffer | src/direct_transfer/core/protocol.py:156-220 | accepts exactly the offers with unique valid IDs, bounded sizes and total_size equal to their sum |
| Protocol.ReadFiles | src/direct_transfer/core/protocol.py:174-206 | the loop accepts exactly the good file lists and returns them with their sum |
| Protocol.OfferOverTheWire | src/direct_transfer/core/transfer.py:1114-1132 | the offer the client sends is accepted iff ID, count, files, total and message are within bounds and the file IDs differ, and is then read back as sent |
| Protocol.ChunkHeaderRoundTrip | src/direct_transfer/core/protocol.py:119-153 | a sent header passes iff ID, file, index and offset are the expected ones and the size is within chunk and remainder |
| Protocol.ChunkHeaderIsExact | src/direct_transfer/core/protocol.py:119-153 | of all payloads exactly the headers of this file at this place, within chunk and remainder, pass |
| Protocol.ResponseRoundTrip | src/direct_transfer/core/protocol.py:223-245 | the decision survives the wire; the reason exactly up to 512 characters |
| Protocol.ResponseIsExact | src/direct_transfer/core/protocol.py:234-245 | of all payloads exactly the responses for this transfer with a boolean decision and a bounded reason pass |
| Protocol.QueryRoundTrip | src/direct_transfer/core/resume.py:214-230 | a resume query passes iff it repeats the accepted offer, file by file |
| Protocol.QueryIsExact | src/direct_transfer/core/resume.py:214-230 | of all payloads exactly those that repeat the offer field by field pass |
| Protocol.CoverageIsImplied | src/direct_transfer/core/resume.py:239-257 | length, membership and duplicate checks force full coverage, so the last check never fires |
| Protocol.NegotiationIsExact | src/direct_transfer/core/transfer.py:527-538 | the state built from prepare is accepted iff every offset is within its file, and gives the sender the same offsets |
| Protocol.StateRoundTrip | src/direct_transfer/core/resume.py:233-258 | a resume_state frame built from any entries is accepted iff they fit the offer, and the entries are read back |
| Protocol.NegotiateOverTheWire | src/direct_transfer/core/transfer.py:527-538 | the frame the receiver sends is accepted iff every planned offset is within its file; the sender then has the plans' offsets |
| Protocol.ReadEntries | src/direct_transfer/core/resume.py:243-257 | the loop accepts exactly the good lists and returns their offsets |
| Protocol.ValidateResumeState | src/direct_transfer/core/resume.py:233-258 | accepts exactly the good payloads; the offsets cover exactly the offered IDs |
| Decimal.ReadOfPrint | src/direct_transfer/core/endpoint.py:97-107 | reading a printed number returns it |
| Decimal.PrintInjective | src/direct_transfer/core/resume.py:32-34 | different indices print differently |
| Naming.StemAndSuffixRebuildTheName | src/direct_transfer/core/resume.py:28-29 | stem plus suffix is the name, and the stem has dots only in front |
| Naming.CandidatesDiffer | src/direct_transfer/core/resume.py:30-34 | candidate names of different indices differ |
| Naming.CandidateIsNumbered | src/direct_transfer/core/resume.py:32-34 | a numbered candidate is the name with a number in brackets between stem and suffix |
| Naming.FreeNameIsKept | src/direct_transfer/core/resume.py:24-31 | a file keeps its own name iff nobody has taken it |
| Naming.TakenIsBounded | src/direct_transfer/core/resume.py:31-34 | a directory of k names takes at most k candidates, so the search stops |
| Naming.ResolveCollision | src/direct_transfer/core/resume.py:21-37 | stops on every finite directory at the smallest free index |
| Commit.Directory.CommitPartial | src/direct_transfer/core/resume.py:40-109 | on success exactly one new name with the partial's content and no partial or temporary left; on an error nothing of ours left; no other entry changed, whatever rivals add meanwhile |
| Commit.Directory.LinkPartial | src/direct_transfer/core/resume.py:46-53 | the hard-link loop adds the smallest candidate its rivals left free |
| Commit.Directory.CopyPartial | src/direct_transfer/core/resume.py:61-109 | the copy, reserve and replace path has the same net effect, and none when the copy, any exclusive open or the replacement fails |
| Commit.Directory.OpenExclusively | src/direct_transfer/core/resume.py:71-82 | the loop of exclusive opens ends at the smallest candidate its rivals left free, or at an open that fails for another reason |
| Resume.PrepareIsCrashSafe | src/direct_transfer/core/resume.py:134-193 | at every crash point of prepare, under any earlier state and any new offer, a record with a partial describes the bytes in it and has no final path |
| Resume.MetadataFirstIsUnsafe | src/direct_transfer/core/resume.py:175-192 | with the opposite order of unlink and metadata write a crash breaks that |
| Resume.PlansAreSafe | src/direct_transfer/core/resume.py:145-187 | a planned offset is within the file and is the length of the surviving partial, or the size of a re-verified final file |
| Resume.PrepareDecides | src/direct_transfer/core/resume.py:134-193 | a matching unfinished partial that is not too long is kept unchanged and continued at its length, a verified final file is not sent again, everything else starts from nothing; nothing else on disk changes |
| Resume.CommitKeepsConsistent | src/direct_transfer/core/resume.py:195-205 | commit and record keep the store consistent, overwrite nothing, and the result re-verifies next time |
| Resume.PartialTransferStore.PrepareFile | src/direct_transfer/core/resume.py:145-187 | one file: resumes the matching partial at its length and leaves it alone, recognises a finished file, or starts from nothing; at most one unlink |
| Resume.PartialTransferStore.PrepareNext | src/direct_transfer/core/resume.py:145-187 | one round of the loop decides its file by the state prepare found, whatever earlier rounds unlinked |
| Resume.PartialTransferStore.PrepareFiles | src/direct_transfer/core/resume.py:145-187 | the loop decides every file by the state it started from, every state on the way consistent |
| Resume.PartialTransferStore.Prepare | src/direct_transfer/core/resume.py:134-193 | every file decided and newly on record, nothing else touched, and only crash-safe durable states in between |
| Resume.PartialTransferStore.MarkCompleted | src/direct_transfer/core/resume.py:195-205 | sets the final path of a known record, fails for an unknown one |
| Resume.PartialTransferStore.CompleteSession | src/direct_transfer/core/resume.py:207-211 | removes everything, in whatever order rmtree takes the entries, through consistent states only |
| Resumption.PartialsOnlyGrow | src/direct_transfer/core/resume.py:170-173 | over any sessions, restarts and crashes in prepare, with any peers, while the file is offered unchanged and nobody tears or deletes its partial: the bytes stay and only more are added behind them, until the file is answered for |
| Resumption.NextSessionContinues | src/direct_transfer/core/transfer.py:524-538 | and the next session's resume_state offers at least those bytes back |
| Reactions.WrongInputEndsSession | src/direct_transfer/core/transfer.py:604-629 | anything but the awaited frame ends the session unanswered with the disk untouched; inside a file a lost connection makes it INTERRUPTED, a cancel CANCELLED, anything else FAILED |
| Reactions.QueryIsAnswered | src/direct_transfer/core/transfer.py:524-538 | the query is answered by what prepare decided, file by file |
| Reactions.StartIsTaken | src/direct_transfer/core/transfer.py:540-561 | file_start sets the record to its offset and to RESUMING or ACTIVE, creates an empty partial at most, and ends the session for an ended record that would have to be received again |
| Reactions.ChunkIsAppended | src/direct_transfer/core/transfer.py:649-675 | the awaited chunk is appended and counted, and nothing else changes |
| Reactions.FailedVerification | src/direct_transfer/core/transfer.py:568-582 | wrong digest: file_result false and FAILED, or INTERRUPTED if it cannot be sent; nothing committed, the session over |
| Reactions.VerifiedIsCommitted | src/direct_transfer/core/transfer.py:583-603 | right digest: committed under the free name, recorded, logged once, COMPLETE and answered; COMPLETE also when the answer cannot be sent |
| Reactions.FinishedBeforeIsAnswered | src/direct_transfer/core/transfer.py:562-603 | a file finished before is answered without writing, unless its record had ended otherwise |
| Reactions.FinIsAnswered | src/direct_transfer/core/transfer.py:627-635 | fin is answered by session_complete and only then the partial directory goes |
| ReceiverSafety.ReceiveKeepsInv | src/direct_transfer/core/transfer.py:515-691 | every input in every phase keeps the receiver's invariant |
| ReceiverSafety.NextKeepsInv | src/direct_transfer/core/transfer.py:515-691 | so do offers, torn writes, restarts, crashes in prepare, outside changes and a deleted partial directory |
| ReceiverRuns.SafetyOverRuns | src/direct_transfer/core/transfer.py:214-228 | over every run: at most one commit per file ID and process, verified content, consistent store, refusals only from terminal statuses, byte counts = resume offset + attempt within the file |
| ReceiverRuns.TerminalOverSessions | src/direct_transfer/core/lifecycle.py:84-89 | a terminal status stays as it is over all later sessions of the process |
| ReceiverRuns.ReceiveAddsAtMostOneName | src/direct_transfer/core/transfer.py:562-603 | one input adds at most one name to the receive directory and changes no entry |
| ReceiverRuns.ByteConservation | src/direct_transfer/core/transfer.py:671-674 | over all sessions the bytes counted for a committed file sum to its size when every close flushes, never to less |
| System.StepIsSafe | src/direct_transfer/core/transfer.py:1184-1301 | every move of sender, receiver and channel keeps the distributed invariant |
| System.DistributedSafety | src/direct_transfer/core/transfer.py:1280-1301 | COMPLETE at the sender implies a verified file on the receiver's record; a normal end means all COMPLETE; session_complete means every offered file |
| System.SenderReplyIsExact | src/direct_transfer/core/transfer.py:1212-1301 | the sender goes on iff the reply is the right one, and then with the receiver's offsets, one more COMPLETE file or a normal end; otherwise it stops with none |
| System.ShrunkSourceStops | src/direct_transfer/core/transfer.py:1252-1254 | a source that ends early stops the sender without another frame |
| Fidelity.StepStaysTrue | src/direct_transfer/core/transfer.py:1240-1270 | every move of an unchanged source keeps partials prefixes of it and committed files equal to it |
| Fidelity.CommitStaysTrue | src/direct_transfer/core/transfer.py:568-592 | what is committed is exactly the source |
| Fidelity.ResumeCorrectness | src/direct_transfer/core/resume.py:134-193 | after any number of sessions cut anywhere: partials are prefixes of the source, everything answered for is in place and is the source |
| Lockstep.DrainPops | src/direct_transfer/core/transfer.py:1212-1214 | reading a reply and catching up with the channel commute |
| Lockstep.MirrorQuery | src/direct_transfer/core/transfer.py:524-538 | the sender's query leaves both sides with the same offsets |
| Lockstep.MirrorStart | src/direct_transfer/core/transfer.py:1216-1242 | file_start leaves both sides at the same file, index and offset |
| Lockstep.MirrorChunk | src/direct_transfer/core/transfer.py:649-675 | each chunk moves both sides to the same index and byte count |
| Lockstep.MirrorEnd | src/direct_transfer/core/transfer.py:1271-1289 | file_end, for a received, zero-size, fully resumed or already committed file, draws the positive result |
| Twins.AddedDrainsAlike | src/direct_transfer/core/resume.py:21-37 | files others add at any moment change only the names the receiver commits under |
| Liveness.StepKeepsLock | src/direct_transfer/core/transfer.py:1184-1301 | every move of an honest session, cuts included, keeps the two sides in step |
| Sessions.HonestSessionsNeverFail | src/direct_transfer/core/protocol.py:119-153 | after any honest run, in a session opened while the records were ready, no move but the user's cancel stops the sender with an error, and no frame makes the receiver give up |
| Sessions.PickAdvances | src/direct_transfer/core/transfer.py:1216-1301 | no deadlock in such a session: whatever a scheduler picks is possible and keeps the sender out of every error exit |
| Sessions.PickLowers | src/direct_transfer/core/transfer.py:1216-1301 | in any session, ready or not, every pick lowers a measure of files, bytes and frames left, so playing a session ends |
| Sessions.SessionCompletesIffReady | src/direct_transfer/core/transfer.py:1212-1301 | after any run of cut sessions, torn writes, restarts, crashes and deleted partial directories, under every scheduler, the next session reaches session_complete iff every record was ready when it was opened, and then every file is delivered byte for byte |
| Sessions.BlockedPlayFails | src/direct_transfer/core/transfer.py:214-228 | a terminal record that does not match its planned file keeps the session from session_complete, whatever is tried |
| Sessions.ReadyUnlessOver | src/direct_transfer/core/transfer.py:214-228 | the records are ready unless, since the receiver last started, it finished the batch, the user cancelled or the partial directory was deleted |
| Sessions.LostCompletionIsNotRecovered | src/direct_transfer/core/transfer.py:627-635 | a run for every non-empty batch in which only the last frame is lost: neither the next session nor anything that follows in that receiver process gets session_complete to the sender |
| Sessions.NotReadyIsFinal | src/direct_transfer/core/transfer.py:214-228 | between sessions, records that are not ready never become ready and the sender never gets session_complete, over any further sessions, cuts and inputs, until the receiver restarts |
| Sessions.CancelIsHandled | src/direct_transfer/core/transfer.py:652-656 | after any honest run, a cancel sent from the chunk loop meets the receiver in its chunk loop and makes the file CANCELLED |
| Chunks.SendChunks | src/direct_transfer/core/transfer.py:1219-1270 | for a source of any length exactly the chunks it yields, with the right index, offset and data; bytes = resume offset + attempt; the source-changed error iff the source ends early, a cancel ends it at once |
| Chunks.TakeChunk | src/direct_transfer/core/transfer.py:651-675 | one round does to file and record what the machine does, and ends in the machine's status |
| Chunks.ReceiveChunks | src/direct_transfer/core/transfer.py:637-676 | on any input the loop consumes a prefix and leaves file, counters and status exactly as the machine does |
| Chunks.ChunksArriveInStep | src/direct_transfer/core/protocol.py:119-153 | from any offset every sent chunk passes the header check, and n of them make the partial the source up to the shared position |
| Worker.AskLiveMeaning | src/direct_transfer/core/transfer.py:1010-1016 | either every live file moves, or the first unwilling one ends the loop with its refusal |
| Worker.SendFilesMeaning | src/direct_transfer/core/transfer.py:1216-1289 | no request made inside a session is refused; which files end COMPLETE and ACTIVE |
| Worker.WorkerCharacterised | src/direct_transfer/core/transfer.py:974-1077 | at most MAX_RETRIES + 1 sessions; a normal return means all COMPLETE; all files end terminal iff no refusal is due, and which refusal it is |
| Worker.WorkerEndsAs | src/direct_transfer/core/transfer.py:974-1077 | the last session decides, all earlier ones having failed on the network: unfinished files end REJECTED on a rejection, CANCELLED on a cancel, FAILED on everything else |
| Worker.OnlyThreeRefusals | src/direct_transfer/core/lifecycle.py:21-72 | the only refusals are PENDING_APPROVAL to INTERRUPTED, ACCEPTED to INTERRUPTED and RESUMING to REJECTED |
| Worker.OfflinePeerStrandsTheBatch | src/direct_transfer/core/transfer.py:1054-1069 | an unreachable peer strands any batch in PENDING_APPROVAL after one attempt |
| Worker.SetLive | src/direct_transfer/core/transfer.py:1010-1016 | the handlers' loop over mutable records refines the function; ended records stay, the others carry the reason |
| Worker.Handle | src/direct_transfer/core/transfer.py:1008-1069 | what a handler leaves: the status and the text of its failure on every file that is not COMPLETE |
| Worker.SendFrom | src/direct_transfer/core/transfer.py:1216-1289 | the loop over the files refines the function, from any file on |
| Worker.SendSession | src/direct_transfer/core/transfer.py:1141-1153 | the session's requests over mutable records refine the function |
| Worker.Attempt | src/direct_transfer/core/transfer.py:975-1077 | one round of the retry loop, every handler included |
| Worker.BatchWorker | src/direct_transfer/core/transfer.py:974-1077 | the retry loop over mutable records, with its outcome, the status of every unfinished file and the retry counts |
| History.HistoryStore.CreateTransfer | src/direct_transfer/core/history.py:75-126 | upserts one transfer row, with every column, and its file rows, and no other |
| History.HistoryStore.UpdateTransfer | src/direct_transfer/core/history.py:128-170 | the guarded update of any of the nine columns; file rows are written even when the guard holds the transfer row; when it reports a change |
| History.HistoryStore.Delete | src/direct_transfer/core/history.py:274-285 | removes the row with its file rows |
| History.HistoryStore.constructor | src/direct_transfer/core/history.py:371-376 | after opening no row claims to be under way; no row appears or goes, finished ones are untouched, and only statuses change |
| History.ResolvedIsComplete | src/direct_transfer/core/transfer.py:1595-1645 | duplicates of a file resolve to COMPLETE iff one of them is |
| History.AggregateIsComplete | src/direct_transfer/core/transfer.py:1741-1757 | the aggregate is COMPLETE iff every record is |
| History.AggregateIsMostUrgent | src/direct_transfer/core/transfer.py:1741-1757 | the aggregate is some record's status or COMPLETE, and no record's is more urgent |
| History.AggregateStatus | src/direct_transfer/core/transfer.py:1741-1757 | the most urgent status among the records, FAILED first, COMPLETE iff all are |
| History.AggregateCounts | src/direct_transfer/core/transfer.py:1653-1665 | a COMPLETE aggregate has a COMPLETE record for every distinct file |
| Columns.CountsAreMaxima | src/direct_transfer/core/history.py:75-126 | over any upserts: file count, total and offset are the greatest written, resumed sticks |
| Columns.TimesAndTexts | src/direct_transfer/core/history.py:75-126 | over any upserts: first start and completion time, last known peer name and message |
| Columns.BeforeCompletion | src/direct_transfer/core/history.py:97-117 | until one is complete, status, error and byte count are the last written |
| Columns.AfterCompletion | src/direct_transfer/core/history.py:97-117 | a complete record holds against unfinished ones after it, with its error and the greatest byte count since |
| Columns.FileTexts | src/direct_transfer/core/history.py:414-447 | a file row keeps its first name and size and the last known digest and path |
| Columns.FileProgress | src/direct_transfer/core/history.py:414-447 | a complete file row holds against unfinished ones; before, the last status and count stand |
| Columns.UpdateSetsWhatIsGiven | src/direct_transfer/core/history.py:128-170 | an update that is not held back sets exactly the columns given |
| Columns.RanksFollowStanding | src/direct_transfer/core/transfer.py:1579-1593 | the order in which duplicates of a file win, COMPLETE first, PENDING last |
| Columns.ResolvedColumns | src/direct_transfer/core/transfer.py:1595-1645 | duplicates resolve to the highest status, the most bytes, the first start, the greatest offset and the last end |
| Columns.RecordColumns | src/direct_transfer/core/transfer.py:1691-1722 | the record of a transfer: greatest counts, sums over the files, first start, last end, first error unless COMPLETE |
| Columns.SumsAdd | src/direct_transfer/core/transfer.py:1678-1680 | bytes, sizes and offsets are sums over the files |
| Columns.TablesAgree | src/direct_transfer/core/transfer.py:1691-1739 | the file rows written with a record agree with it: as many, bytes and sizes summing to its own, COMPLETE together |
| Columns.ThrottlingLosesLittle | src/direct_transfer/core/transfer.py:1681-1690 | a round is skipped iff the same unfinished status was written less than 2 s and 4 MiB ago |
| Persistence.GroupItems | src/direct_transfer/core/transfer.py:1654-1658 | groups records by file and direction, the name standing in for a missing ID, in order of first appearance |
| Persistence.TransferLog.PersistTransfer | src/direct_transfer/core/transfer.py:1653-1739 | writes the merged row and file rows when a flush is due, nothing otherwise |
| Claims.ClaimIsExact | src/direct_transfer/core/transfer.py:1647-1739 | every event keeps row and file rows honest, except exactly: an offer listing a file not finished under a complete row, a row completing while an earlier offer's file was abandoned, a finished file ID offered with another digest |
| Claims.HonestIffNothingOverclaims | src/direct_transfer/core/transfer.py:1647-1739 | over every run from an empty history without deletions, row and file rows are honest all the way iff no event overclaims |
| Claims.CompletionIsRecorded | src/direct_transfer/core/transfer.py:1665-1690 | a persist turns a row complete iff every record is COMPLETE and as many are there as the row counts, and is never throttled away |
| Claims.DecisionIsRecorded | src/direct_transfer/core/transfer.py:1521-1553 | a decision in the history: what row and file rows say after each verdict |
| Claims.HistoryNeverOverclaims | src/direct_transfer/core/transfer.py:1647-1739 | across restarts, if all offers under the ID list one batch (IDs, sizes, digests), a complete row means exactly the files of that batch were COMPLETE, and a complete file row means a file of its digest was |
| Claims.OneProcessIsHonest | src/direct_transfer/core/transfer.py:1486-1553 | in one process, from an empty history and with any peer, no row claims too much and a complete one stays so |
| Claims.CompleteIsKept | src/direct_transfer/core/history.py:97-117 | over any run a complete row stays complete iff no offer is turned down and the row is not deleted; its byte count never falls |
| Claims.DeletionForgetsTheOffer | src/direct_transfer/core/transfer.py:1666-1677 | after any run and a deletion, up to the next offer, history is honest at every step iff no persist sees all its records COMPLETE while a file of the current offer has no record and was not finished before, or an earlier offer was abandoned |
| Claims.ReofferOverclaims | src/direct_transfer/core/history.py:97-117 | a run in which another file, or the same file ID with other content, is offered under a complete row |
| Claims.ReofferedFileOverclaims | src/direct_transfer/core/history.py:97-126 | a run in which a file row reads complete under a digest that was never received |
| Claims.AbandonedOfferOverclaims | src/direct_transfer/core/transfer.py:1665-1690 | a run in which an abandoned offer's file is covered by another offer's completion |
| Claims.TurnedDownOverwrites | src/direct_transfer/core/transfer.py:1521-1553 | a run in which turning the same offer down takes a true complete row back |
| Claims.DeletedRowOverclaims | src/direct_transfer/core/history.py:274-285 | a run in which a deleted row is first written back honestly and then reads complete with one of two files |
| Inbox.IncomingRequestManager.PublishOffer | src/direct_transfer/core/inbox.py:77-111 | which of the five outcomes, by the entry under the ID and the pending ones, and all each one changes |
| Inbox.IncomingRequestManager.DecideRequest | src/direct_transfer/core/inbox.py:183-201 | a pending request gets exactly this verdict and reason, as does the callback, and its event is set; otherwise, and elsewhere, nothing changes |
| Inbox.IncomingRequestManager.PruneOld | src/direct_transfer/core/inbox.py:161-170 | nothing pending is lost and no entry changes; what goes was decided and old, nothing decided and old stays, and the invariant holds on |
| Inbox.IncomingRequestManager.CancelAll | src/direct_transfer/core/inbox.py:172-181 | with nothing in between: exactly the pending requests become CANCELLED for this reason, every event set, one decision each |
| Inbox.CancelAllWakesEveryone | src/direct_transfer/core/inbox.py:172-181 | whatever others do between its lock sections, everyone waiting on a request pending at its start is woken |
| Inbox.InboxSafety | src/direct_transfer/core/inbox.py:77-201 | over every interleaving: capacity, events set iff decided, decided once and for good, publications minus decisions equals pending |
| Inbox.CallsBalance | src/direct_transfer/core/inbox.py:77-201 | with the callbacks made after the lock is released, by any number of threads: on_request minus on_decision calls is the number of pending requests, off by the calls still owed, so by at most the number of threads |
| Inbox.NoLostWakeup | src/direct_transfer/core/inbox.py:145-150 | over every interleaving from an empty inbox, pruning included: a sleeper on a request no longer pending can wake, and a decision wakes everyone asleep on it |
| Inbox.PendingMeansReplaced | src/direct_transfer/core/inbox.py:156-159 | over every interleaving from an empty inbox: a waiter returns a pending request iff the entry is pending and a later publication than the one it waited for |
| Inbox.WaitReturnsADecision | src/direct_transfer/core/inbox.py:141-159 | with nothing pruned, waiting never returns a pending request and never loses its entry |
| Inbox.WaiterLearnsTheVerdict | src/direct_transfer/core/inbox.py:141-159 | over every interleaving: whoever waits for a request that is decided returns exactly that verdict and reason, unless entries are pruned |
| Inbox.TimeoutExpires | src/direct_transfer/core/inbox.py:150-155 | a waiter whose time is up expires the request if it is still pending |
| Inbox.PruneBreaksWait | src/direct_transfer/core/inbox.py:161-170 | a run with pruning in which it does |
| Endpoints.ColonMeansV6 | src/direct_transfer/core/endpoint.py:39-53 | in a valid host a colon means IPv6, and brackets occur only there |
| Endpoints.ValidIsExact | src/direct_transfer/core/endpoint.py:25-53 | a valid endpoint: port, length, no white space, and an IP address or a host name of labels joined by dots that does not look like an IPv4 address |
| Endpoints.ParseIsExact | src/direct_transfer/core/endpoint.py:56-103 | parse yields an endpoint iff the text is its bare host with the default port, host:port, or [IPv6]:port, and it is valid |
| Endpoints.PrintThenParse | src/direct_transfer/core/endpoint.py:105-107 | a valid endpoint survives printing iff its host has no closing bracket |
| Endpoints.BracketInZone | src/direct_transfer/core/endpoint.py:39-53 | a valid host with a closing bracket in its zone, which printing loses |
| Endpoints.ParsedIsValid | src/direct_transfer/core/endpoint.py:56-94 | what parse accepts is valid and free of closing brackets |
| Endpoints.ParsePrintParse | src/direct_transfer/core/endpoint.py:56-107 | parse(str(parse(s))) equals parse(s) for every accepted string and any default ports |
| Handshake.ClientHandshake | src/direct_transfer/core/session.py:190-225 | one hello out; accepts exactly what the checks on the reply allow |
| Handshake.ServerHandshake | src/direct_transfer/core/session.py:228-261 | answers only a valid hello of a trusted key, before deriving the key |
| Handshake.HelloIsExact | src/direct_transfer/core/session.py:98-144 | a hello passes iff type, version, role, identity and field lengths are right and it is signed by the key it names |
| Handshake.ForgeriesAreRefused | src/direct_transfer/core/session.py:136-142 | acceptance implies a signature that verifies: by the pinned peer's key at the client, by a trusted identity's at the server |
| Handshake.HonestEndsAgree | src/direct_transfer/core/session.py:190-261 | two honest ends whose messages arrive unaltered both accept, with each other's identity and the same key |
| Agreement.RolesDiffer | src/direct_transfer/core/session.py:109-117 | no client signs with the server's role, no server with the client's |
| Agreement.TraceKeepsInv | src/direct_transfer/core/session.py:190-261 | every trace keeps the log, the answered clients and the asked servers |
| Agreement.Agreement | src/direct_transfer/core/session.py:205-225 | an accepting client was answered by the trusted peer's own server run on exactly its hello |
| Agreement.ServedWasAsked | src/direct_transfer/core/session.py:235-241 | a hello a server answered was made by a client with that key |
| Agreement.DistinctRuns | src/direct_transfer/core/session.py:213-215 | over every trace no server run answers two clients |
| Agreement.SameKeyIffUnchanged | src/direct_transfer/core/session.py:164-187 | over every trace an accepting client was answered by a run of its peer that answers nobody else, and both hold the same key iff the server's hello arrived unchanged |

## Left out

- Sockets, threads, select, timeouts, listener binding and shutdown: only "a session may be cut at any step" and atomic lock sections remain.
- The inside of AES-GCM, Ed25519, X25519, HKDF, SHA-256, JSON text and base64: parameters with stated laws.
- SQLite, its schema and its errors: rows are maps, and a statement either runs or the store is unavailable.
- Handlers running at once on one transfer ID, and two receiver processes on one partial directory.
- Changes others make to the receive directory other than adding names between two steps of a commit; case-insensitive file systems.
- Path rules: file names are valid basenames, which never end in a dot, so the special case of such names in Python's `suffixes` does not arise; final paths are names in the receive directory.
- Worker.BatchWorker: hashing, size limits and the creation of the records before the loop are not modelled; exceptions other than the caught classes and the refused transition are not modelled.
- Sessions.SessionCompletesIffReady: is about a source that does not change and a receive directory from which nobody removes files.
- Fidelity.ResumeCorrectness: is about a receive directory from which nobody removes or alters files.
- Persistence.TransferLog.PersistTransfer: treats one transfer ID at a time; the loop over IDs, and the lookup of a peer's name, are not modelled.
- Claims.DeletionForgetsTheOffer: speaks of the time up to the next offer or deletion.
- Handshake.ClientHandshake: a lost connection and an undecodable frame read as one malformed message.
- The text interface, the command line, events, logging, paths, configuration, the address book, identity and trust persistence, pairing and its inbox: wrappers and map invariants that add no depth.
- Exactly-once delivery across a receiver restart, and recovery after a digest mismatch: the code does not promise them.
