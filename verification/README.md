# Technocore agent scripts: a verified model

This project models the parts of the Technocore agent scripts that decide something, and
proves what they promise over whole runs. The scripts share one style: a fail-closed state
machine over a sequence of records, messages or files.

* **tclk/1 transcripts.** `Json`, `CanonicalJson`, `Frames`, `FrameLines`, `FrameCodec` and
  `FrameTheorems` read and write canonical frame lines (escapes and surrogate pairs as in section 7
  of RFC 8259). `Spelling` and `FrameText` fix that text itself, character by character and frame by
  frame, and `Patterns` fixes the schema's patterns as regular expressions. `Contracts` is the
  escrow state machine as a mutable object, `ContractTraces` the language of frame runs it accepts,
  `ClaimDeadlines` what its claim deadline is worth. `Folds` folds one stream over many contracts,
  `Interleavings` reorders such streams, `Transport` and `Transcripts` are the signed batch around
  the frames, with the two dictionaries that share contract objects; `TranscriptMessages` says what
  a report means for the messages. `CrossRoom` is the auditor of a board room and a deal room,
  `CrossRoomRefinement` relates it to the fold, and `AuditRecords` says what its report means for
  the records.
* **Snapshot recorder.** `Intervals` (merge and holes), `Recorder` (inspection, hash chain),
  `RecorderRuns` (staged writes cut by crashes), `ArchiveTheorems` (every run of captures),
  `ReportedReceipts` and `RecordedCalls` (what one call reads, refuses, writes, warns of and reports).
* **Mailbox protocol.** `Mailbox` (durable files, atomic writes, review of a batch),
  `MailboxScripts` (the five scripts as sequences of writes and as methods on the files),
  `PollOutcomes` (which reply and which files get which exit, and what is left),
  `MailboxInvariant`, `MailboxRuns` and `MailboxRecovery` (every run, with a crash after any write).
* **Codecs.** `Radix`, `Base58` (sections 3 and 4 of draft-msporny-base58) and `Base64Url`
  (sections 3.5 and 5 of RFC 4648).
* **Close Call exports** (`CloseCall`, `CloseCallTheorems`), **nonce reservation** (`Nonces`) and
  **bounded retries** (`Backoff`).

Where the source computes, the model is functions and lemmas. Where it changes variables, fields
or files step by step, the model is a method or a class, proved equal to a specification function;
the theorems are about that function. SHA-256, Ed25519, the timestamp reader and Unicode tables are
function-valued fields of `Env` or `Crypto` datatypes. Injectivity of a hash is never built in: each
theorem that needs it has it as a `requires`. A crash is a cut: only the first so many atomic writes
of a script take place.

Python errors and shell exit codes become `None`, `Err` or an enumeration. Strings are sequences of
code points, so surrogates that Python keeps in strings are representable.

## What the proofs found

* `claimByMs` is validated but enforced nowhere. Every valid offer that leaves a millisecond between
  it and `refundAfterMs`, and has a possible counterparty, has an accepted run that claims too late;
  all claims come in time exactly when `refundAfterMs <= claimByMs + 1`
  (`ClaimDeadlines.ClaimsInTime`, `ClaimDeadlines.LateRunFits`).
* A string with a split surrogate pair does not survive the canonical codec; the exact condition is
  `Clean` (`Json.StringRoundTrip`, `Json.SplitPairDoesNotSurvive`).
* The Close Call DID decoder ignores leading ones, so it differs from the other three exactly on
  strings that start with a 1 (`Base58.DecodersAgree`); no string of the DID pattern does
  (`Transport.DidDecodersAgree`).
* A crash after the acknowledgement has removed the pending file and before the saved batch is
  removed leaves a mailbox that is safe but stuck (`MailboxRecovery.AckCrashes`); a crash before that
  point can be finished by repeating the command. No script for the reviewed path, and no removal of
  the pending file, moves a stuck mailbox again (`MailboxRecovery.StuckForever`). Two operator actions
  do. Acknowledging a newer cursor by hand moves the cursor but never removes the batch, and it skips
  the review (`MailboxRecovery.StuckUntilAdoption`, `MailboxRecovery.HandAcknowledgementSkips`).
  Adopting the batch's own generation and starting cursor, polling, reviewing and acknowledging again
  finishes what the crash cut short (`MailboxRecovery.AdoptionRecovers`).
* The documentation calls nonces monotonic. The shell comparison is a signed 64-bit one, so above
  that range a stored 19-digit nonce is followed by a smaller one (`Nonces.LargeNonceGoesBack`);
  `Nonces.ChoiceIncreases` gives the exact condition.
* The retry script overflows in three ways: a doubled delay (`Backoff.DelayCanWrap`), a delay plus its
  jitter (`Backoff.WaitCanWrap`), and an attempt limit beyond 64 bits, with which nothing is polled.
  It sleeps as intended exactly when neither sum nor product overflows (`Backoff.WaitsClosedForm`).
* A receipt batch that breaks off in the middle is counted as unrecognized, but the receipts in front
  of the break are kept (`Recorder.ReceiptsExactly`).

## Model

| member | source | states |
|---|---|---|
| `Json.StringRoundTrip` | scripts/validate-tclk-transcript.py:98-99 | a string written with ASCII escapes reads back unchanged, followed by the same rest, if and only if it holds no split surrogate pair |
| `Json.SplitPairDoesNotSurvive` | scripts/validate-tclk-transcript.py:98-99 | the concrete string U+D83D U+DE00 reads back as the one character U+1F600 |
| `Json.ValueRoundTrip` | scripts/validate-tclk-transcript.py:98-99 | any value without repeated keys or split pairs reads back from its text, whatever text follows it |
| `CanonicalJson.CanonicalRoundTrip` | scripts/validate-tclk-transcript.py:89-99 | loading the canonical text of a value returns the value with its keys sorted |
| `CanonicalJson.CanonicalInjective` | scripts/validate-tclk-transcript.py:98-99 | two values share a canonical text exactly when they differ in key order alone |
| `CanonicalJson.SortedUnique` | scripts/validate-tclk-transcript.py:98-99 | an object with strictly sorted keys is determined by its lookups, so canonical form is unique |
| `CanonicalJson.ReadFromPrintable` | scripts/validate-tclk-transcript.py:89-95 | whatever loads from printable ASCII has no repeated key and no split pair, and so survives canonical writing |
| `Spelling.CanonicalSpelled` | scripts/validate-tclk-transcript.py:98-99 | the canonical text is the compact text of the key-sorted value, where each character has the spelling of an independent table: printable ASCII as itself, seven short escapes, any other as `\u` and four digits in 0-9a-f, a surrogate pair of them above U+FFFF |
| `Spelling.AccentSpelled` | scripts/validate-tclk-transcript.py:98-99 | caf followed by U+00E9 and U+1F600 is written `"caf\u00e9\ud83d\ude00"` |
| `FrameText.LineSpelled` | scripts/validate-tclk-transcript.py:265-277 | a frame's line is the prefix `tclk1 ` and the compact object with the literal field names of its kind in their order; its `from` field is its sender |
| `FrameText.OfferPreimage` | scripts/validate-tclk-transcript.py:222-225 | an offer id hashes `FLOP::tclk::v1|offer|` and the compact object of every field but the id, byte for byte |
| `FrameText.ContractPreimage` | scripts/validate-tclk-transcript.py:306-309 | a contract id hashes `FLOP::tclk::v1|contract|` and the compact object of the acceptance's four fields and the offer, byte for byte |
| `Patterns.DidPattern` | scripts/validate-tclk-transcript.py:30 | the DID test is the full match of `did:key:z6Mk[1-9A-HJ-NP-Za-km-z]{44}` |
| `Patterns.Hex32Pattern` | scripts/validate-tclk-transcript.py:31 | the identifier test is the full match of `0x[0-9a-f]{64}` |
| `Patterns.AmountPattern` | scripts/validate-tclk-transcript.py:32 | the amount test is the full match of `[1-9][0-9]*` |
| `Patterns.AssetPattern` | scripts/validate-tclk-transcript.py:33 | the asset test is the full match of `[A-Za-z0-9_-]{1,32}` |
| `Patterns.RailPattern` | scripts/validate-tclk-transcript.py:34 | the rail test is the full match of `[a-z0-9][a-z0-9._-]{0,63}`, the protocol test that with at most 31 more characters |
| `Patterns.NoncePattern` | scripts/validate-tclk-transcript.py:35 | the nonce test is the full match of `[0-9a-f]{8,64}` |
| `Patterns.RoomPattern` | scripts/validate-tclk-transcript.py:36 | the room test is the full match of `[a-z0-9][a-z0-9_-]{0,47}` |
| `Patterns.SignaturePattern` | scripts/validate-tclk-transcript.py:38 | the signature test is the full match of `[A-Za-z0-9_-]{86}` |
| `FrameTheorems.DecodesExactlyLines` | scripts/validate-tclk-transcript.py:265-277 | a text decodes as frame f if and only if it is f's canonical line, f is valid under the schema, the line fits the size limit and no string of f holds a split surrogate pair |
| `FrameTheorems.LinesAndFramesAgree` | scripts/validate-tclk-transcript.py:265-277 | two accepted lines are equal exactly when their frames are |
| `FrameTheorems.OfferIdsAreUnique` | scripts/validate-tclk-transcript.py:222-225 | with an injective hash, two valid offers with one id are the same offer |
| `FrameTheorems.ContractIdsAreUnique` | scripts/validate-tclk-transcript.py:306-309 | with an injective hash, one contract id names one offer and one acceptance of it |
| `FrameCodec.OfferReadsBack` | scripts/validate-tclk-transcript.py:200-225 | every valid offer passes the schema check on its own object and comes back field by field |
| `FrameCodec.KindReadsBack` | scripts/validate-tclk-transcript.py:226-261 | every valid accept, lock, reveal, refund, cancel, receipt and heartbeat passes the schema check of its type and comes back |
| `Contracts.Contract.constructor` | scripts/validate-tclk-transcript.py:280-295 | a new contract is proposed, with the offerer as payer or payee by its role and nothing else set |
| `Contracts.Contract.Apply` | scripts/validate-tclk-transcript.py:297-366 | a frame either takes the one transition its type allows or is refused with the named reason, and a refused frame changes no field |
| `Contracts.RefusedForFirst` | scripts/validate-tclk-transcript.py:297-366 | a frame is refused with a reason exactly when the check behind that reason fails and no earlier check of its kind does |
| `ContractTraces.TraceLanguage` | scripts/validate-tclk-transcript.py:291-366 | the accepted runs after an offer are exactly the prefixes of: accept, heartbeats, then a cancel and receipts, or a lock, heartbeats, one reveal or refund, and receipts, each meeting guards given by the offer, accept and lock frames alone |
| `ContractTraces.ClaimShape` | scripts/validate-tclk-transcript.py:297-334 | a claimed contract saw an acceptance before expiry, then a lock by the payer on an offered rail, then a reveal by the payee opening the accepted statement, both before the refund time |
| `ContractTraces.SettlementShape` | scripts/validate-tclk-transcript.py:297-345 | a claimed or refunded contract saw an acceptance before expiry, a lock and the frame that settled it, and its contract id and rail are theirs |
| `ClaimDeadlines.ClaimsInTime` | scripts/validate-tclk-transcript.py:212-216 | for every valid offer with a possible counterparty, all accepted runs of valid frames claim by `claimByMs` if and only if `refundAfterMs <= claimByMs + 1` |
| `ClaimDeadlines.LateRunFits` | scripts/validate-tclk-transcript.py:324-334 | otherwise a run of valid accept, lock and reveal frames at times in order is accepted and ends claimed with `claimByMs` < claim time < `refundAfterMs` |
| `Folds.FoldMeaning` | scripts/validate-tclk-transcript.py:397-442 | the fold accepts a stream exactly when its lines are distinct, every frame routes to an earlier offer or acceptance, and each contract's own frames run alone; it then holds exactly the states of those solo runs |
| `Interleavings.ReorderingIsHarmless` | scripts/validate-tclk-transcript.py:397-442 | with an injective hash, any re-interleaving of an accepted stream that keeps each contract's own order is accepted with the same state for every contract |
| `Interleavings.OneAcceptPerContract` | scripts/validate-tclk-transcript.py:431-436 | with an injective hash, an accepted stream never accepts one contract id twice |
| `Interleavings.AcceptsAgree` | scripts/validate-tclk-transcript.py:306-309 | with an injective hash, acceptances carrying one contract id name one offer |
| `Transport.DecodedKeyHasPattern` | scripts/validate-tclk-transcript.py:121-134 | every string that decodes to a prefixed 32-byte key has the DID pattern |
| `Transport.DidDecodersAgree` | scripts/verify-close-call.py:67-79 | on every string of the DID pattern all four decoders read the same bytes |
| `Transport.ChallengeBinds` | scripts/validate-tclk-transcript.py:141-143 | the signed text is room, decimal nonce and text between bars; for rooms without a bar it determines all three |
| `Transport.TransportExactly` | scripts/validate-tclk-transcript.py:121-146 | a message passes exactly when its nonce has at most 19 digits, its text holds no surrogate, and some 32-byte key whose DID is the sender signed `room|nonce|text` with a 64-byte signature whose only text is the one retained |
| `Transcripts.AcceptedBatches` | scripts/validate-tclk-transcript.py:369-456 | a batch is accepted exactly when header, sequences, signatures and lines pass and its frames satisfy the conditions of `FoldMeaning`; every reported contract is that of its solo run and the counts add up |
| `TranscriptMessages.MessageEventExactly` | scripts/validate-tclk-transcript.py:415-425 | a verified message is ordinary exactly when its text does not start with `tclk1 `, and is taken as frame f at time t exactly when its text is the line of the valid frame f of at most 4096 characters, its sender is f's and its own timestamp reads t |
| `TranscriptMessages.AcceptedExactly` | scripts/validate-tclk-transcript.py:369-442 | a batch is accepted exactly when its header agrees with its messages, these are numbered without a gap up to the proposed cursor, all are signed, and what the marked ones say, each at its own time, is distinct, routed and acceptable contract by contract |
| `TranscriptMessages.FramesAreMessages` | scripts/validate-tclk-transcript.py:404-442 | the frames a report counts are exactly the messages whose text starts with `tclk1 `, in their order, each at its own timestamp; the others are the ignored count |
| `TranscriptMessages.SettledMessages` | scripts/validate-tclk-transcript.py:297-345 | behind a contract reported claimed or refunded stand four messages in order, the lines of an offer with its id, an acceptance, a lock and a reveal or refund, each guard read at its message's own timestamp: before expiry, before the refund time, before it for a reveal and not before it for a refund; the report names that contract id and rail |
| `TranscriptMessages.ReportedStatus` | scripts/validate-tclk-transcript.py:456-475 | whatever the status, a reported contract's status, contract id and rail are what its own frames amount to: cancelled, claimed or refunded by a cancel, reveal or refund, locked by a lock not yet settled, proposed with nothing after the offer |
| `Transcripts.ValidateTranscript` | scripts/validate-tclk-transcript.py:369-456 | the loop over two dictionaries sharing mutable contract objects computes exactly the specified report |
| `Transcripts.ReorderedBatches` | scripts/validate-tclk-transcript.py:397-456 | with an injective hash, any well-formed batch holding the frames of an accepted one, each contract's in their old order, is accepted and reports the same contracts with the same status and rail |
| `Transcripts.TakeFrame` | scripts/validate-tclk-transcript.py:420-441 | one frame updates exactly one shared object, refuses what the fold refuses, and keeps both dictionaries in step with the world |
| `Transcripts.SequencesAreConsecutive` | scripts/validate-tclk-transcript.py:406-414 | sequences that pass the checks are consecutive, and start after the starting cursor unless that is 0 |
| `CrossRoom.LoadExport` | scripts/audit-tclk-cross-room.py:31-65 | an export loads exactly when it is one gapless, verified stretch with the described digest and last sequence |
| `CrossRoom.Auditor.Take` | scripts/audit-tclk-cross-room.py:94-118 | one frame changes the auditor's offers, selected contract, seen lines, clock and counts as specified, or is refused |
| `CrossRoom.RunAudit` | scripts/audit-tclk-cross-room.py:68-120 | the nested loops over both rooms compute exactly the specified audit |
| `CrossRoomRefinement.RoomsRefineFold` | scripts/audit-tclk-cross-room.py:79-120 | if the auditor accepts, the same signed frames, board then deal, are accepted by the transcript fold with the same state for the target, which is its solo state, and the target's own frames never go back in time |
| `CrossRoomRefinement.OneSelectedAcceptance` | scripts/audit-tclk-cross-room.py:100-110 | no contract id is accepted twice in an accepted audit |
| `CrossRoomRefinement.AuditedRooms` | scripts/audit-tclk-cross-room.py:68-84 | whatever the full audit reports comes from two loaded exports to which the refinement applies |
| `AuditRecords.RecordEventExactly` | scripts/audit-tclk-cross-room.py:86-97 | an unsigned or unmarked record is skipped; any other is taken as frame f at time t exactly when its text is the line of the valid frame f, its sender is f's, f is an offer or acceptance on the board and any other kind in the deal room, and its own timestamp reads t |
| `AuditRecords.FramesAreRecords` | scripts/audit-tclk-cross-room.py:84-118 | the frames an audit counts are exactly the signed records marked `tclk1 ` of the two files, in order, each at its own timestamp, every board frame an offer or acceptance and every deal frame neither; the two counts are their numbers |
| `AuditRecords.SettledRecords` | scripts/audit-tclk-cross-room.py:98-117 | behind an audit that reports claimed or refunded stand an offer and then its acceptance among the board's records, a lock and then a reveal or refund among the deal room's, their own timestamps in this order, each guard read at them, the accepted contract being the target |
| `AuditRecords.AuditedExactly` | scripts/audit-tclk-cross-room.py:68-125 | with an injective hash, an audit reports exactly when both files are captured whole, the rooms are `tclk-offers` and `mb-p-tclk-` with the target's first 16 digits, and what the records show is distinct, routed, acceptable contract by contract, in time order within each contract, about the target in the deal room, and accepts the target on the board |
| `AuditRecords.LoadableExactly` | scripts/audit-tclk-cross-room.py:31-65 | an export is loaded exactly when the digest fits and it holds every number from the first to the last, each record within 4096 characters, dated, and verified if signed |
| `Base58.Accumulate` | scripts/validate-tclk-transcript.py:111-116 | the loop fails exactly on a foreign character and otherwise yields the number the letters spell in base 58 |
| `Base58.DecodeValidator` | scripts/verify-technocore-export.py:32-38 | the transcript and export decoders compute the specified bytes |
| `Base58.DecodeEnvelope` | scripts/verify-envelope.py:48-69 | the envelope decoder computes the same bytes and refuses the empty payload |
| `Base58.DecodeCloseCall` | scripts/verify-close-call.py:67-79 | the Close Call decoder computes the bytes of the number alone |
| `Base58.EncodeLoop` | tests/test-tclk-paper-rail.py:28-34 | repeated division computes the specified encoding |
| `Base58.DecodeUndoesEncode` | tests/test-tclk-paper-rail.py:28-34 | decoding undoes encoding on every byte string, leading zeros included |
| `Base58.EncodeUndoesDecode` | scripts/validate-tclk-transcript.py:111-118 | encoding undoes decoding on every alphabet string, leading ones included |
| `Base58.DecodersAgree` | scripts/verify-close-call.py:70-76 | on alphabet strings the Close Call decoder agrees with the others exactly when there is no leading 1 |
| `Base58.AlphabetSpelled` | scripts/verify-close-call.py:26 | the alphabet constant lists the 58 letters at the positions the digit functions use |
| `Base58.KeyLetters` | tests/test-tclk-paper-rail.py:37-39 | every 32-byte key under prefix ed 01 encodes to exactly 47 characters starting 6Mk |
| `Base58.DidRoundTrip` | tests/test-tclk-paper-rail.py:37-39 | the key read from the DID of a key is that key, and every such DID has 56 characters and the fixed start |
| `Base58.DidOfKey` | scripts/validate-tclk-transcript.py:132-134 | a DID a key can be read from is the DID of that key: no key has two DIDs |
| `Base64Url.FastTestIsExact` | scripts/review-mailbox-batch.py:26 | an 86-character base64url string survives decoding to 64 bytes and re-encoding exactly when its last character is A, Q, g or w |
| `Base64Url.SignatureRoundTrip` | scripts/verify-envelope.py:91-118 | every 64-byte signature has exactly one accepted text |
| `Base64Url.PackUnpack` | scripts/validate-tclk-transcript.py:135-140 | re-encoding the decoded bytes gives back the text exactly when its four dropped bits are zero |
| `Base64Url.AlphabetOrder` | scripts/verify-envelope.py:91-118 | the 64 characters stand for their positions in A to Z, a to z, 0 to 9, dash, underscore |
| `Base64Url.UnpackValue` | scripts/validate-tclk-transcript.py:135-140 | the decoded bytes, read as one number in base 256, are the sextets read as one number in base 64 without the dropped low bits |
| `Intervals.MergeLoop` | scripts/record-contest-room.py:122-129 | the loop that widens the last interval computes the specified merge |
| `Intervals.MergeMeaning` | scripts/record-contest-room.py:122-129 | merging covers exactly the points of its input and yields sorted, disjoint, non-adjacent intervals |
| `Intervals.CanonicalUnique` | scripts/record-contest-room.py:122-129 | a set of points has one such interval list |
| `Intervals.HolesLoop` | scripts/record-contest-room.py:132-139 | the cursor loop computes the specified holes |
| `Intervals.HolesPartition` | scripts/record-contest-room.py:132-139 | coverage and holes are disjoint, together cover every integer from after + 1 to the high-water mark, and their lengths sum to the mark minus after |
| `Intervals.HolesAreCanonical` | scripts/record-contest-room.py:132-139 | the holes are themselves sorted, disjoint and non-adjacent, and below the mark |
| `Recorder.InspectLoop` | scripts/record-contest-room.py:142-202 | the nested inspection loops compute the specified intervals, signature counts, unrecognized count and receipts, or reject |
| `Recorder.ReceiptsExactly` | scripts/record-contest-room.py:171-201 | a receipt is reported exactly when a line validly signed by the configured referee holds an entry for the configured contest, request and participant with an accepted or rejected status and only objects before it; the unrecognized count is the number of such lines that raise while being read |
| `Recorder.InspectMeaning` | scripts/record-contest-room.py:142-202 | an accepted export is reported as the canonical intervals of exactly its sequences above the mark, and every line is counted once |
| `Recorder.InspectAccepts` | scripts/record-contest-room.py:142-169 | an export is accepted exactly when it ends a line, every line parses and the sequences strictly increase from at least 1; each count is the number of lines of its kind |
| `ReportedReceipts.ReceiptsInOrder` | scripts/record-contest-room.py:171-199 | an accepted export reports one receipt for each line and entry that bears one, in the order of lines and then entries, each with its line's number, content and disposition; the conditions are read off the fields of line and entry |
| `ReportedReceipts.UnrecognizedExactly` | scripts/record-contest-room.py:173-201 | the unrecognized count is the number of the referee's valid lines whose text is no JSON, or a batch of the contest without a list or with an entry that is not an object |
| `Recorder.HeadFixesArchive` | scripts/record-contest-room.py:224-240 | with an injective digest, two archives that pass the chain check with equal last manifest digests hold the same number of snapshots, byte for byte the same |
| `Recorder.PrefixVerifies` | scripts/record-contest-room.py:224-240 | every prefix of a verified archive verifies, so a removed tail goes unnoticed |
| `RecorderRuns.Archive.Verify` | scripts/record-contest-room.py:224-240 | the verification loop computes the head of the chain, or none |
| `RecorderRuns.Archive.Write` | scripts/record-contest-room.py:276-290 | writing four files and renaming, cut at any point, leaves exactly the specified snapshots and staging directories |
| `RecorderRuns.Archive.Record` | scripts/record-contest-room.py:205-290 | one call has exactly the effect and outcome specified, for every crash point |
| `RecordedCalls.RecordedContents` | scripts/record-contest-room.py:246-290 | a recorded call adds one snapshot: the export as fetched, its transport record, a receipts file with exactly the receipts an intact export of the configured generation bears and none otherwise, and a manifest naming the previous manifest, the three digests, the counts and the number of those receipts; the report repeats the manifest |
| `RecordedCalls.WarningsExactly` | scripts/record-contest-room.py:246-266 | each of the six warnings is given exactly for its own reason, and in a fixed order |
| `RecordedCalls.ChainExactly` | scripts/record-contest-room.py:224-240 | an archive verifies exactly when the snapshots are numbered from 1, each holds its four files and its manifest names the configuration, the manifest before it and the digests of the other three |
| `RecordedCalls.RefusedExactly` | scripts/record-contest-room.py:221-278 | a call is refused, changing nothing, exactly when there are 1000 snapshots, the bytes on disk reach the budget, the archive does not verify, the export exceeds 33554432 bytes, the generation is out of range or the new files would not fit |
| `RecordedCalls.CrashLeaves` | scripts/record-contest-room.py:279-287 | a crash leaves nothing, the whole snapshot, or one staging directory with the first files whole, at most one cut short and none after it |
| `ArchiveTheorems.NewCoverageMeaning` | scripts/record-contest-room.py:246-256 | coverage after a capture is canonical and holds the old points plus those a valid export of the configured generation shows |
| `ArchiveTheorems.NoWarning` | scripts/record-contest-room.py:246-266 | a capture draws no warning exactly when it is a valid export of the configured generation that reaches at least as high as before, has no bad signature or unreadable referee payload, and leaves no number missing up to the new mark |
| `ArchiveTheorems.StepEffects` | scripts/record-contest-room.py:279-290 | a call leaves earlier snapshots untouched; refused changes nothing, crashed before the rename adds no snapshot, recorded adds exactly one |
| `ArchiveTheorems.StepIsSound` | scripts/record-contest-room.py:205-290 | stopping a call at any write keeps the archive verifiable, within budget and limit, with coverage of the completed captures only |
| `ArchiveTheorems.RunIsSound` | scripts/record-contest-room.py:205-290 | after every run of captures the archive verifies, fits the budget, holds exactly the completed raw exports in order, and its stored coverage is the canonical list of the points they show |
| `ArchiveTheorems.CoverageByCaptures` | scripts/record-contest-room.py:246-256 | two runs with the same set of completed captures end with equal coverage, whatever their order, repetition, crashes and refusals |
| `ArchiveTheorems.ReportIsNextLoad` | scripts/record-contest-room.py:254-290 | a completed call reports the coverage the next load finds, and lists as missing exactly the numbers up to the mark that no completed capture showed |
| `ArchiveTheorems.RunOnlyAppends` | scripts/record-contest-room.py:285-287 | over any run snapshots and completed captures are only appended |
| `ArchiveTheorems.MissingUntilShown` | scripts/record-contest-room.py:264-274 | a number listed as missing stays listed through any further calls exactly as long as no completed matching capture shows it |
| `Mailbox.ValidateBatchLoop` | scripts/review-mailbox-batch.py:127-242 | the review loop computes the specified receipt or fails |
| `Mailbox.ReplaysLoop` | scripts/review-mailbox-batch.py:245-268 | the history scan, in any file order, finds a replay exactly when some archived receipt of the generation has a signature at another sequence |
| `Mailbox.ValidatedIsContiguous` | scripts/review-mailbox-batch.py:155-217 | a validated batch runs without a gap to its proposed cursor from the message after the starting cursor (from any first message when that is 0), with distinct signatures |
| `Mailbox.ValidatedExactly` | scripts/review-mailbox-batch.py:127-217 | a batch is validated exactly when its header agrees with its messages, these are numbered without a gap from the message after the starting cursor to the proposed one, each is well formed and signed, and no signature repeats |
| `Mailbox.ReceiptExactly` | scripts/review-mailbox-batch.py:198-242 | the receipt carries the batch's header, for each message in order its number and the hashes of its sender, its text, `mailbox|nonce|text` and its signature, and the number of messages with a URL |
| `Mailbox.ReviewExactly` | scripts/review-mailbox-batch.py:245-268 | a batch passes the review exactly when its file is small enough, it is validated, and no archived receipt of the generation has one of its signatures at another number |
| `Mailbox.HoldsRange` | scripts/review-mailbox-batch.py:164-217 | such a receipt accounts for exactly one closed range of sequences ending at the proposed cursor |
| `MailboxScripts.Box.Poll` | scripts/poll-mailbox.sh:48-335 | the poller performs the planned writes, with the planned status and output, cut anywhere |
| `MailboxScripts.Box.WriteReceipt` | scripts/review-mailbox-batch.py:271-306 | an identical receipt is kept, a missing one created, any other refused |
| `MailboxScripts.Box.ReviewMailbox` | scripts/review-mailbox.sh:37-87 | saving, reviewing and cleaning up performs exactly the planned writes, cut anywhere |
| `MailboxScripts.Box.AckMailbox` | scripts/ack-mailbox.sh:29-136 | the acknowledgement replaces the cursor and then removes the pending file only on an exact match without regression or generation change |
| `MailboxScripts.Box.AckReviewed` | scripts/ack-reviewed-mailbox.sh:35-79 | review, acknowledge, archive and delete performs exactly the planned writes, cut anywhere |
| `MailboxScripts.Box.FetchOnce` | scripts/fetch-mailbox-once.py:28-71 | pausing, polling and publishing performs exactly the planned writes, cut anywhere |
| `PollOutcomes.PollExits` | scripts/poll-mailbox.sh:48-274 | for every reply and every state of the files, each exit holds if and only if its condition on them does: 76 when a number is pending, 75 when nothing was retrieved or a usable response was not held, 4 when both generations are known and differ, 3 when the response starts beyond the cursor's successor and something was read, 0 when none of these and the response is usable and held, 1 otherwise |
| `PollOutcomes.PollLeaves` | scripts/poll-mailbox.sh:244-335 | a poll that ends well prints the response's own messages and numbers, and marks its last number pending if it is new or else records a generation learnt; any other poll prints and changes nothing |
| `PollOutcomes.FetchLeaves` | scripts/fetch-mailbox-once.py:28-69 | a fetch is paused by a marker, a batch or a pending number; otherwise the reply alone decides whether it leaves everything as it was, resumes with nothing new, saves the printed batch and stays paused, or fails and stays paused |
| `PollOutcomes.FetchPauses` | scripts/fetch-mailbox-once.py:38-67 | a fetch that set its marker resumes alone exactly when it ran to the end and nothing was retrieved, or a usable response was not held, or a held one in order brought nothing new |
| `PollOutcomes.ReviewLeaves` | scripts/review-mailbox.sh:37-87 | which batch a review works on, with which exit, and what it leaves: nothing changed, an empty batch cleared away, or the receipt saved |
| `PollOutcomes.AckLeaves` | scripts/ack-mailbox.sh:29-136 | an acknowledgement by number is accepted exactly when the number is the pending one, not behind the cursor and of no contradicting generation, and then moves the cursor there and removes the pending file |
| `PollOutcomes.AckReviewedLeaves` | scripts/ack-reviewed-mailbox.sh:35-79 | a reviewed batch is acknowledged exactly when its receipt is saved and reproduced, it has messages, its number can be acknowledged and no other receipt is archived under its name; the receipt is then archived and nothing stays in flight, and otherwise nothing changes |
| `MailboxInvariant.AcknowledgeKeeps` | scripts/ack-mailbox.sh:105-135 | replacing the cursor moves it only over sequences the live receipt accounts for, never back, and keeps a known generation |
| `MailboxInvariant.ArchiveKeeps` | scripts/ack-reviewed-mailbox.sh:70-74 | filing a reviewed receipt keeps signatures and sequences one to one across the archive |
| `MailboxInvariant.WriteKeeps` | scripts/ack-reviewed-mailbox.sh:43-77 | no single write of any script breaks the mailbox invariant in a state where a script may perform it |
| `MailboxRuns.PollPermitted` | scripts/poll-mailbox.sh:220-335 | whatever the poller prints starts at the current cursor, has its acknowledgement pending if it would move the cursor, and carries the known generation |
| `MailboxRuns.PollPromises` | scripts/poll-mailbox.sh:114-274 | the poller alone promises messages after the cursor in increasing order up to the proposed cursor, with no gap at the front once something was read |
| `MailboxRuns.PollerToleratesGaps` | scripts/poll-mailbox.sh:167-185 | messages 6 and 8 with a last sequence of 9, unsigned or with signatures of the canonical form, are printed and made pending by the poller, and the review refuses them |
| `MailboxRuns.StepPermitted` | scripts/review-mailbox.sh:37-78 | in every reachable state each script only performs permitted writes |
| `MailboxRuns.RunKeeps` | scripts/ack-reviewed-mailbox.sh:43-77 | the invariant holds after every run of scripts and operator actions with a crash after any write |
| `MailboxRuns.Perform` | scripts/fetch-mailbox-once.py:28-71 | a step of a run is what the script of that name, or the operator's command, does to the files, cut anywhere |
| `MailboxRuns.NoMessageSkipped` | scripts/review-mailbox-batch.py:155-217 | after every run, every sequence from the first acknowledged message to the cursor is in an archived or live receipt of the current generation |
| `MailboxRuns.NoSignedReplay` | scripts/review-mailbox-batch.py:245-268 | in every reachable archive, within one generation, signature hash and sequence correspond one to one across all receipts |
| `MailboxRuns.RunIsForward` | scripts/ack-mailbox.sh:105-134 | over any run without an operator adopting a generation, the cursor never decreases, a known generation never changes and archived receipts stay |
| `MailboxRuns.BatchRetained` | scripts/fetch-mailbox-once.py:67-68 | no action overwrites a saved batch, and one is given up only when empty or when its receipt is archived with the cursor past it |
| `MailboxRecovery.AckCrashes` | scripts/ack-reviewed-mailbox.sh:68-77 | cut before the pending file is removed, repeating the command reaches the uncrashed end; cut after it and before the batch is removed, the mailbox is stuck; a complete run archives and cleans up |
| `MailboxRecovery.StuckUntilAdoption` | scripts/ack-mailbox.sh:29-66 | from a stuck mailbox, as long as no operator adopts a cursor, no run of scripts, hand acknowledgements and removals of the pending file removes the batch, the cursor never goes back, and it moves only in a hand acknowledgement |
| `MailboxRecovery.StuckForever` | scripts/ack-reviewed-mailbox.sh:35-77 | without hand acknowledgements either, the cursor stands still for good |
| `MailboxRecovery.AcknowledgedByHand` | scripts/ack-mailbox.sh:61-135 | from a stuck mailbox a hand acknowledgement moves the cursor exactly when it names a pending cursor ahead of it whose generation does not contradict the known one |
| `MailboxRecovery.HandAcknowledgementSkips` | scripts/ack-mailbox.sh:61-135 | one polled message and its cursor acknowledged by hand leave a stuck mailbox with its cursor past a message that no receipt holds |
| `MailboxRecovery.AdoptionRecovers` | scripts/ack-reviewed-mailbox.sh:35-77 | after a crash that leaves the mailbox stuck, adopting the batch's generation and starting cursor, polling up to the same last sequence, reviewing and acknowledging ends idle with the receipt archived and the cursor at the batch's end |
| `MailboxRecovery.ReviewThenAckAdvances` | scripts/ack-reviewed-mailbox.sh:43-79 | from an idle mailbox an accepted reply with messages is acknowledged through its last sequence exactly when the review accepts it; otherwise cursor, batch and pending file stay for the operator |
| `MailboxRecovery.HaltedFetcherWaits` | scripts/fetch-mailbox-once.py:28-33 | a halted fetcher starts no poll, whatever else runs or crashes, until the marker is removed by hand |
| `CloseCall.VerifyExportsLoop` | scripts/verify-close-call.py:179-249 | the loops over rooms, lines and commitments compute exactly the specified evidence or fail |
| `CloseCall.ClassifiedInOrder` | scripts/verify-close-call.py:167-176 | five configured rooms that classify have five different kinds, each room ending with the name of its kind, and are listed in their configured order |
| `CloseCall.ClassifiedExactly` | scripts/verify-close-call.py:167-176 | rooms classify exactly when each ends with -price, -flow, -state, -positions or -pnl and each of the five endings occurs; no room has two of them |
| `CloseCallTheorems.ScanShape` | scripts/verify-close-call.py:196-231 | an accepted prefix of a room is numbered from 1 and holds at most one seed, then consecutive sweeps, then at most one final at the very end, all by one referee |
| `CloseCallTheorems.AcceptedAreComplete` | scripts/verify-close-call.py:184-249 | accepted exports are complete and agree: one referee, sequences 1 to k, sweeps 1 to latest with latest at least 1, the same hash for a sweep in all five rooms, latest + 1 records plus one for a final in the price room and latest in the others |
| `CloseCallTheorems.CompleteAreAccepted` | scripts/verify-close-call.py:184-249 | every such set of exports is accepted with exactly that evidence |
| `CloseCallTheorems.CompleteIsUnique` | scripts/verify-close-call.py:184-249 | referee, commitments and final flag determine all records |
| `Nonces.ChoiceIncreases` | scripts/send.sh:106-131 | a chosen nonce exceeds the stored one exactly when clock and stored nonce are below 2^63, or the clock is ahead |
| `Nonces.ChosenExactly` | scripts/send.sh:104-131 | below 2^63 the chosen nonce is the clock if it is ahead of the stored nonce and otherwise the stored nonce plus one, refused from 2^63 - 1 on; beyond 19 digits clock or stored nonce are refused, and in between the clock is taken |
| `Nonces.LargeNonceGoesBack` | scripts/send.sh:122-131 | a stored nonce of 2^63 and a clock of 5 choose 5 |
| `Nonces.NoncesNeverRepeat` | scripts/send.sh:98-141 | for any senders, interleaving and crashes, and clocks and stored nonces below 2^63, reservations of a room strictly increase in lock order, and no two senders sign with one nonce |
| `Nonces.OneSenderAtATime` | scripts/send.sh:101-141 | at most one sender is between taking and releasing the lock |
| `Nonces.NonceFiles.Reserve` | scripts/send.sh:104-138 | one reservation replaces the room's file with the chosen nonce, or refuses and changes nothing |
| `Backoff.DelayClosedForm` | scripts/poll-with-backoff.sh:34-73 | the delay before retry k is min(INITIAL_DELAY * 2^k, MAX_DELAY) for all retries up to n exactly when no doubling wraps around |
| `Backoff.DelayCanWrap` | scripts/poll-with-backoff.sh:67-72 | with INITIAL_DELAY 2^62 and MAX_DELAY 2^62 + 1 the next delay is -2^63 |
| `Backoff.WaitsClosedForm` | scripts/poll-with-backoff.sh:61-73 | the first n waits are min(INITIAL_DELAY * 2^k, MAX_DELAY) plus jitter exactly when no delay still to be used wraps and no such sum reaches 2^63 |
| `Backoff.WaitCanWrap` | scripts/poll-with-backoff.sh:61-62 | with both delays 2^63 - 1 and a jitter of 5 no doubling happens and the first wait is negative |
| `Backoff.OrdinaryDelays` | scripts/poll-with-backoff.sh:61-73 | with MAX_DELAY up to 2^62 nothing overflows, whatever the jitter |
| `Backoff.PollWithBackoff` | scripts/poll-with-backoff.sh:24-100 | at most MAX_ATTEMPTS polls, none after a status other than 75; the script polls once more than the retries called for, sleeps the intended waits and passes the last status on if and only if nothing overflows in those retries; it ends with status 1 when a wait is negative and polls nothing when MAX_ATTEMPTS is 2^63 or more |
| `Backoff.TotalWait` | scripts/poll-with-backoff.sh:61-65 | however the script ends, it has slept at most (MAX_ATTEMPTS - 1) * (MAX_DELAY + 15) seconds |

## Left out

- SHA-256, Ed25519, Unicode categories, URL search and the ISO-8601 reader are opaque functions; collisions and forgeries are not modelled.
- JSON values that no valid frame holds (floats, true, false, null) are refused by the modelled reader outright; Python would parse them and refuse the frame.
- JSON beyond frame lines is typed: saved batches, manifests, receipts, cursor files and export records are datatypes, a line of the wrong shape is `None`, and malformed or oversized cursor files are excluded.
- Reports are maps from offer id to status; the order of the report's list and its redacted hashes are not modelled.
- Error messages and the order of checks inside one rejection are not modelled, except in `Contracts`, where every refusal has its name.
- `Transcripts.ValidateTranscript`: transport timestamps are not ordered, as in the source; only the cross-room audit orders them.
- `Mailbox.ReceiptExactly`: the JSON text behind the batch digest is an opaque function of generation, cursors and reviewed items.
- `Recorder.InspectLoop`: splitting an export into lines, decoding each, and reading the signed text of a line as a payload are one opaque step that yields typed rows; JSON nested too deeply for the interpreter is a line that does not decode.
- `ArchiveTheorems.RunIsSound`: all calls share one configuration and budget; the manifest encoding is a function assumed to be undone by its decoder for manifests of that configuration.
- File ownership, modes, symbolic links, fsync and the lock files are left out; renames, links and unlinks are atomic, and mailbox actions run one at a time, as the documentation requires.
- `MailboxRuns.NoMessageSkipped`: direct use of `ack-mailbox.sh` without review is outside the actions, since it does not promise contiguity; removal of the pending file is allowed only while no batch is saved, and an operator adopts a generation only with nothing in flight and not behind an archived receipt of it. Without that discipline the claim is false (`MailboxRecovery.HandAcknowledgementSkips`).
- `MailboxRuns.NoSignedReplay`: under the same discipline.
- `MailboxRuns.RunIsForward`: an operator may adopt a generation only with nothing in flight and not behind an archived receipt of it.
- `Nonces.NoncesNeverRepeat`: it is about reservations; the order in which messages are posted is not modelled. Stored nonces with leading zeros, which the shell would read as octal, are not modelled.
- `Backoff.PollWithBackoff`: INITIAL_DELAY and MAX_DELAY at or above 2^63, which the shell cannot compare, are excluded.
- `CloseCall.VerifyExportsLoop`: parsing and signature checks of an export line are one opaque step, and the package check that configures the rooms is left out.
- HTTP, redirects, timeouts, command lines, logging, systemd units and printed reports are left out.
- The shape and hash checks of `verify_package` and of the archive verifier, the single continuity loop of the export verifier, the affine position model, and the installation and drift-check scripts are left out.
