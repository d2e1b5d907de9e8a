# Hybrid FTP: a verified model of its transfer core

The repository is an FTP server and client whose control connection runs over TCP and whose files travel over
UDP, through a Go-Back-N protocol of its own. This project models the parts that decide whether a file arrives
intact, and proves that it does:

| Dafny modules | part of the program |
|---|---|
| `Bytes`, `ChunkFeed`, `FileHandler` | byte strings, the pull buffer the codecs share, reading a file in pieces |
| `BlockMode`, `CompressedMode`, `ModeCodec` | the MODE S/B/C codecs (sections 3.4.2 and 3.4.3 of RFC 959) and the re-batcher |
| `RdtSender`, `SenderBounds`, `SenderRuns`, `RdtReceiver`, `ReceiverRuns` | the two ends of the Go-Back-N transfer, as loops over a script of what they meet |
| `GoBackN`, `ReliableTransfer` | both ends and an adversarial network as one step system |
| `RdtHeader`, `DatagramGates` | the datagram format, its checks, and the START metadata; which bytes pass the checks |
| `PathLocks`, `LockSystem` | the reference-counted path locks, and any number of threads using them |
| `AtomicUpload`, `UploadSystem`, `UploadRuns` | temporary file and replacement, and any number of uploads doing it at once |
| `TransferManager`, `Download`, `EndToEnd`, `ClientRuns` | the compositions: STOR, APPE and STOU on the server, a download on the client, and which clients can do what |
| `Framing` | commands and replies cut out of the TCP stream (section 4.2 of RFC 959) |

Loops that change state in the source are methods with loop invariants, over the same buffers, windows, counters and
tables. Each is proved equal to a specification function, or to satisfy a specification predicate, and the properties
are proved of that specification. `Parse`, `Drive` and `Listen` are such functions: what a decoder makes of a whole
wire string, and what a sender or a receiver does on a whole script.

The network of `GoBackN` is the set of every datagram ever sent, so it loses, repeats, delays and reorders at will;
a damaged datagram is one that the gates drop. Threads interleave at every lock operation and every file operation.
The checksum is an arbitrary function, a parameter of every lemma about datagrams.

## What the code does that one might not expect

These are results of the proofs, each with its exact condition.

- START and data packet 0 are acknowledged with the same number. The sender's documentation says that an ACK for N
  confirms every packet through N (`common/rdt_sender.py:74-76`); for N = 0 it does not. A second copy of START's ACK
  can slide packet 0 out of the window undelivered, so a one-packet transfer can succeed at the sender with nothing
  delivered (`OnePacketFalseSuccess`). `SuccessMeansDeliveredIff` says exactly when a success means delivery.
- The same second copy can stall a transfer of two or more packets: the sender resends from packet 1 on, the receiver
  waits for packet 0 and acknowledges nothing. `StallReachableIff` says exactly which transfers can stall. Over a
  perfect network the resends run out of retries (`StallFails`), and on any run whatever only a copy of packet 0 that
  arrives after all can end the stall (`OnlyPacketZeroEndsStall`). A lossless round advances the sender if and only if
  the last acknowledged packet was delivered (`RoundAdvancesIff`).
- The receiver re-acknowledges the FIN for a bounded time only, so the sender can run out of retries although the
  receiver has returned with everything. `FalseFailureIff` says exactly for which transfers: all that can complete.
- STOU finds its name unused before it locks it (`common/filesystem_service.py:219-224`). No two STOUs ever store under
  one name, since each holds its directory's lock from the choice of the name to the commit, and none replaces a file
  that was there to begin with (`StouIsUnique`). But it can replace what a STOR or APPE puts there in between:
  `StouReplacesIff` says exactly for which clients.
- A Block-mode wire whose last chunk is empty is refused as trailing data (`common/mode_codec.py:149-153`). The round
  trip holds for every re-chunking of the wire except exactly those (`ModeRoundTrip`). No honest sender makes one
  (`WireChunksFit`).
- A sender whose window took the last chunk without noticing that it was the last waits for one datagram more, with an
  empty window (`common/rdt_sender.py:103-122`). Under a retry limit of 1 a timeout there fails a transfer that is
  wholly acknowledged, and nothing else there fails it (`LastWait`).
- The receiver's flag check takes an acknowledgment for a data packet with number 0 and no payload
  (`AckPassesAsData`), so the forward channel must carry only what a sender sends.
- A payload of more than 1088 bytes is cut by the receive buffer and dropped every time (`PacketAccepted`).

## Model

| member | source | states |
|---|---|---|
| `EndToEnd.UploadsAreExact` | server/transfer_manager.py:77-95 | for any number of clients, files, modes, types and targets, any network, schedule, cancel and failure: in every reachable state the server's files are the old ones with the committed uploads applied in commit order, each storing exactly its client's file at the target it asked for; a STOU commit is in the directory asked for, over no file that was there to begin with, shares its path with no other STOU's, and replaces at most a STOR's or an APPE's file; a path with no commit is as it was; a transfer whose mode or type differs, or whose source raises, has committed nothing |
| `EndToEnd.CommitIsExact` | common/filesystem_service.py:238-278 | in every reachable state, the replacing step, which needs only that the write loop has ended without an error, puts exactly the client's file in its target, for APPE behind the bytes that the target holds at that moment if it is a file; and no other step of anything changes any file |
| `EndToEnd.RunningIsPrefix` | common/filesystem_service.py:254-259 | in every reachable state a running upload has written a prefix of its client's file, and its temporary file holds just that, for APPE behind the bytes of the target if it is a file |
| `EndToEnd.CommitCarriesFile` | common/filesystem_service.py:255-264 | a write loop that has ended without an error has seen the receiver return normally, under an agreed mode and type, and has written the whole file |
| `EndToEnd.ReturnedCanCommit` | common/filesystem_service.py:254-264 | once the receiver has returned, an upload that is writing can write the rest of the file and then commit |
| `EndToEnd.ReceiveIsRun` | server/transfer_manager.py:77-88 | where the server's method stores decoded bytes, the system has the steps that write these and commit them, with the same effect on the files |
| `ClientRuns.CommitsIff` | server/transfer_manager.py:77-88 | in some run of the whole a client's file is committed, whatever the others ask for, if and only if window and retry limit are at least 1, mode and type agree and the source does not raise |
| `ClientRuns.StouReplacesIff` | common/filesystem_service.py:218-224 | a client's STOU can replace a file if and only if it can complete and some other client that can complete asks for STOR or APPE directly in its directory, at a path where no file was to begin with |
| `ClientRuns.ReachesReplace` | common/filesystem_service.py:219-238 | the counter-run: STOU picks an unused name, the other client stores its file there, and STOU comes to replace it |
| `EndToEnd.ReturnedDecodes` | common/rdt_receiver.py:169-173 | once the receiver has returned, decoding what it delivered finishes without error and gives the sender's file |
| `EndToEnd.SentDecodes` | common/mode_codec.py:294-315 | the payloads of an honest transfer decode to the file read in pieces, in every mode and type the two sides agree on |
| `RdtHeader.DatagramsAccepted` | common/rdt_receiver.py:88-155 | every data datagram of a file read in pieces and encoded, in any mode, passes all the receiver's gates as itself |
| `EndToEnd.StepKeeps` | server/transfer_manager.py:77-95 | every step of any network or any upload keeps the joint invariant of all networks, locks, temporary files, commits and bytes written, which are always a prefix of what the decoder has passed on |
| `Download.DownloadIsExact` | common/rdt_receiver.py:227-240 | whatever a receiver that returned has met, decoding what it delivered finishes and gives exactly the other side's file |
| `Download.DownloadFile` | common/rdt_receiver.py:227-240 | a download from an honest far end: success puts exactly the far end's file in place, anything else leaves the old one, and a receiver that returned fails only for a file operation |
| `Download.ReceiveFile` | common/rdt_receiver.py:185-246 | the file is replaced by the decoded bytes only if the receiver returned and the decoder finished; a malformed wire or a failed file operation ends it at once; on every failure the old file stays, and no temporary file does; without a file fault it ends well exactly when the decoder finishes |
| `Download.LocalFiles.WriteAtomic` | common/file_handler.py:44-72 | commits exactly when no file operation fails and the source does not raise; the target then holds the joined chunks; otherwise nothing changes |
| `TransferManager.Receive` | server/transfer_manager.py:65-125 | STOR and APPE: success means that the receiver returned, the decoder finished, and the target holds the decoded bytes, for APPE behind the bytes that it held before, with reply 226 and their count; otherwise no file changes; an impossible target is answered with 550 whatever arrives, without cancel or fault a malformed wire at once and an interrupted one in the end with 426, a cancel with 426, and a failed file operation with 501, 550 or 451 by the kind of its error |
| `ReliableTransfer.DeliverySafety` | common/rdt_receiver.py:160-183 | in every reachable state of sender, receiver and network the payloads delivered are a prefix of those sent, and the receiver returns normally only with all of them |
| `ReliableTransfer.AckSoundness` | common/rdt_sender.py:134-155 | every acknowledgment in flight with a number k of at least 1 has k below the number delivered; a last acknowledged number of at least 1 means that packets 0 to it were delivered |
| `ReliableTransfer.SuccessDelivers` | common/rdt_sender.py:103-155 | with two or more packets a sender's success means that everything was delivered |
| `ReliableTransfer.OnePacketFalseSuccess` | common/rdt_receiver.py:142-143 | the counter-run: with one packet the sender can succeed with nothing delivered |
| `ReliableTransfer.SuccessMeansDeliveredIff` | common/rdt_sender.py:143-155 | success means delivery on all runs if and only if there are two or more packets or the transfer cannot send at all (window or retry limit below 1, mode and type differ, or the chunk source raises at once) |
| `ReliableTransfer.ModeAgreement` | common/rdt_receiver.py:125-144 | nothing is delivered, returned or successful unless the receiver has accepted a START, and it accepts one only of its own mode and type |
| `ReliableTransfer.OneRoundProgress` | common/rdt_sender.py:130-151 | from any reachable state where the sender waits with a non-empty window, the last acknowledged packet has been delivered, a retry is left and the chunk source does not raise, one timeout followed by loss-free delivery of the resent window and of its ACKs acknowledges the whole window; and that round is a run of the system |
| `ReliableTransfer.RoundAdvancesIff` | common/rdt_sender.py:130-151 | a lossless round advances the sender if and only if the last acknowledged packet was delivered; otherwise the transfer is stalled at packet 0 before it and after it |
| `ReliableTransfer.StallReachable` | common/rdt_receiver.py:142-143 | the run to the stalled state, for every transfer of two or more packets that can send and whose source does not raise while the window behind packet 0 is filled |
| `ReliableTransfer.StallReachableIff` | common/rdt_sender.py:108-151 | a stall is reachable if and only if there are two or more packets, the transfer can send, and the source gives all its chunks or raises only behind the window |
| `ReliableTransfer.OnlyPacketZeroEndsStall` | common/rdt_receiver.py:160-183 | once packet 0 was taken for acknowledged undelivered, on every run on which no copy of it arrives nothing is delivered and the sender does not succeed |
| `ReliableTransfer.StallFails` | common/rdt_sender.py:123-132 | from a stalled state lossless rounds deliver nothing, and after as many as the retry limit leaves the next timeout fails the sender |
| `ReliableTransfer.CanComplete` | common/rdt_sender.py:103-155 | from every live state, a stalled one included since an old copy of packet 0 may still arrive, there is a run to the sender's success and the receiver's return with everything delivered |
| `ReliableTransfer.SomeRunCompletesIff` | common/rdt_sender.py:78-155 | a transfer has a complete run if and only if window and retry limit are at least 1, mode and type agree, and the source of chunks does not raise |
| `ReliableTransfer.FalseFailure` | common/rdt_receiver.py:277-295 | the counter-run: everything arrives, the last acknowledgment is lost, the grace period runs out, and then the sender's retries do |
| `ReliableTransfer.FalseFailureIff` | common/rdt_sender.py:123-128 | the sender can run out of retries although the receiver has returned with everything, if and only if the transfer can complete at all |
| `ReliableTransfer.InOrderArrivals` | common/rdt_receiver.py:160-183 | meeting a stretch of packets in order, the receiver takes all that it lacks and last acknowledges the end of the stretch |
| `ReliableTransfer.HearsAcks` | common/rdt_sender.py:143-151 | hearing any ACKs, one of them inside the window, an open sender advances to it at least and does not fail |
| `ReliableTransfer.RoundIsRun` | common/rdt_sender.py:130-132 | the round is something that the network may do |
| `ReliableTransfer.SenderBurst` | common/rdt_sender.py:90-155 | the sender method's run on any script of acknowledgments in flight is a run of the step system |
| `ReliableTransfer.ReceiverBurst` | common/rdt_receiver.py:70-183 | the receiver method's run on any script of datagrams in flight is a run of the step system |
| `ReliableTransfer.ReceiverGivesUp` | common/rdt_receiver.py:77-83 | timeouts end the receiver with an error exactly when they reach the limit in a row, delivering and acknowledging nothing meanwhile |
| `ReliableTransfer.GraceEnds` | common/rdt_receiver.py:267-295 | the grace period ends after as many receives as attempts are left, whatever they bring, and sends nothing but ACKs of the FIN, at most one for each attempt |
| `ReceiverRuns.ListenConcat` | common/rdt_receiver.py:70-183 | a run on a script in two parts is the run on the first and, from the state that this leaves, the run on the second |
| `ReceiverRuns.EveryPacketAnswered` | common/rdt_receiver.py:160-183 | data packets in any order, repeated or with gaps, met behind packet 0: each is answered by exactly one ACK, its own when it is the next in sequence and else the last one again |
| `ReceiverRuns.DeliversInTurn` | common/rdt_receiver.py:160-173 | of data packets in any order exactly those are delivered that come in their turn, each once |
| `ReceiverRuns.EndsAtOnce` | common/rdt_receiver.py:71-138 | whatever came before, a cancel, a closed socket, an ABORT or a START of another mode or type ends the receiver with an error at once: nothing more is delivered, acknowledged or looked at |
| `ReceiverRuns.StartAcknowledged` | common/rdt_receiver.py:139-144 | a START of the receiver's mode and type is acknowledged with 0 whenever it comes, and changes nothing else but the timeouts |
| `ReceiverRuns.DatagramRenews` | common/rdt_receiver.py:74-83 | behind any datagram, even one that the gates drop, the receiver raises exactly after the full limit of timeouts in a row |
| `ReceiverRuns.FinThenThree` | common/rdt_receiver.py:171-173 | the FIN packet in its turn is delivered and acknowledged; the receiver returns after exactly three more receives, or a closed socket, and acknowledges the FIN again for each of them that looks like it |
| `ReceiverRuns.GraceIgnoresCancel` | common/rdt_receiver.py:277-295 | a cancel during the grace period changes nothing |
| `GoBackN.StepKeeps` | common/rdt_sender.py:96-155 | every step of sender, receiver and network keeps the joint invariant: what is in flight was sent by this sender or acknowledges what was delivered, and what is delivered is a prefix of what was sent |
| `GoBackN.ReachableInv` | common/rdt_receiver.py:62-183 | the joint invariant holds in every reachable state |
| `SenderBounds.WindowTheorem` | common/rdt_sender.py:96-155 | on every run the window holds exactly the packets after the last acknowledged and before the next, at most the window size of them; the bytes counted are those of the acknowledged packets; a success returns the length of the whole source |
| `SenderBounds.RunBounds` | common/rdt_sender.py:121-153 | with n packets, window w and retry limit r every run sees at most n(r-1)+1 window timeouts and sends at most n + n(r-1)w data datagrams; a run not ended has ignored all but r + n + n(r-1) + 1 of what it heard |
| `SenderBounds.LastWait` | common/rdt_sender.py:103-132 | the wait that can follow the last ACK: the sender fails there if and only if a timeout comes under a retry limit of 1, and otherwise succeeds |
| `SenderBounds.RefusedRun` | common/rdt_sender.py:78-79 | a window or retry limit below 1 fails the transfer with nothing sent |
| `SenderBounds.DriveInv` | common/rdt_sender.py:103-153 | the window, handshake and counter invariants hold wherever a run can stop |
| `SenderRuns.DriveSplit` | common/rdt_sender.py:103-151 | a run that waits goes on with its next input, and looks at a cancel only behind it |
| `SenderRuns.CancelStops` | common/rdt_sender.py:103-106 | a cancel behind any input, in the handshake or the window loop, ends the run as failed, with ABORT as the last datagram and nothing sent behind what the input made it resend; only if that input used up the last try, or left a source known to be over with nothing unacknowledged, is it too late |
| `SenderRuns.CancelFirst` | common/rdt_sender.py:293-296 | a cancel before anything else aborts the transfer before its START |
| `SenderRuns.HandshakeGivesUp` | common/rdt_sender.py:293-314 | each input that is not the ACK of START costs one START, and after as many as the retry limit the sender fails |
| `SenderRuns.Opens` | common/rdt_sender.py:103-119 | the ACK of START makes the sender send the first packets, in sequence: as many as the window holds and there are, up to one that the source raises for, which fails it |
| `SenderRuns.AckSlides` | common/rdt_sender.py:143-151 | an ACK inside the window sets the timeouts back, moves the window behind it, and makes the sender send exactly the packets that there is room for now, in sequence; that of the last packet ends the transfer if the source is known to be over |
| `SenderRuns.OthersIgnored` | common/rdt_sender.py:134-144 | noise, and an ACK behind or ahead of the window, change nothing and send nothing, and the timeouts counted stay counted |
| `SenderRuns.ResendsWindow` | common/rdt_sender.py:121-132 | timeouts in a row resend every unacknowledged packet, in sequence, once each, until the retry limit is reached, which fails the sender without a further resend |
| `RdtSender.SendChunks` | common/rdt_sender.py:78-155 | the window loop's final state and everything that it sends are those of the step functions that the theorems here and in `SenderRuns` are about, for every script of cancels, timeouts, noise and ACKs, and for a source of chunks that gives all of them or raises at any packet |
| `RdtSender.SendStartWithAck` | common/rdt_sender.py:281-314 | the START handshake opens the window after ACK 0, gives up after the retry limit, aborts on a cancel, and spends an attempt on anything heard |
| `RdtSender.FillWindow` | common/rdt_sender.py:108-119 | new packets are sent in sequence while the window has room and the source has chunks; a source that raises fails the transfer |
| `RdtSender.Receive` | common/rdt_sender.py:121-151 | one receive: a timeout resends the window in sequence or fails at the limit, an ACK inside the window slides it, anything else is ignored |
| `RdtSender.Slide` | common/rdt_sender.py:147-150 | popping the smallest numbers leaves exactly those above the ACK, and counts exactly the bytes of the others |
| `RdtSender.Lookahead` | common/rdt_sender.py:223-233 | every chunk in order, the last one marked; one empty last chunk for an empty source |
| `RdtSender.Packets` | common/rdt_sender.py:109-117 | one packet for each chunk, or one for none; packet i has number i, and FIN is on the last alone |
| `RdtSender.PacketsCarry` | common/rdt_sender.py:108-119 | the packets' payloads join to the source's bytes |
| `RdtSender.GivenArePackets` | common/rdt_sender.py:223-233 | a source that raises after some first chunks of a transfer has had all of them but the last passed on, as that transfer's packets without FIN |
| `RdtReceiver.ReceiveChunks` | common/rdt_receiver.py:48-183 | what the receiver yields, acknowledges and ends with are those of the step function that the theorems here and in `ReceiverRuns` are about, for every script of events |
| `RdtReceiver.TakeTurn` | common/rdt_receiver.py:70-183 | one turn of the receive loop is that of the step function, whose answers to each datagram `ReceiverRuns` states without it |
| `RdtReceiver.FinGrace` | common/rdt_receiver.py:267-295 | the grace loop: three attempts, each spent on one datagram or timeout, a re-ACK for each that looks like the FIN |
| `RdtHeader.HeaderRoundTrip` | common/RDTHeader.py:42-64 | a serialised header is 20 bytes and reads back field by field, whatever payload follows |
| `RdtHeader.BytesRoundTrip` | common/RDTHeader.py:42-64 | any 20 bytes read as a header that serialises to them, or that is refused exactly when its flags are not one of the six valid values; no two headers share their bytes |
| `RdtHeader.MetadataRoundTrip` | common/rdt_context.py:40-74 | START metadata is 10 bytes and gives back size, MODE and TYPE |
| `RdtHeader.DatagramParses` | common/RDTHeader.py:66-82 | a sealed datagram parses back to its header and payload, and its checksum verifies, for any checksum function |
| `RdtHeader.PacketAccepted` | common/rdt_receiver.py:146-157 | a data packet passes the gates as itself exactly when its payload is at most 1088 bytes, and is dropped otherwise; which other bytes pass, `DatagramGates.DataIff` says |
| `RdtHeader.PacketFlags` | common/rdt_sender.py:114-117 | the last packet is sent with FIN alone, the others with DATA, and each with its own number |
| `RdtHeader.StartAccepted` | common/rdt_receiver.py:112-126 | a START passes the gates with its size, MODE and TYPE |
| `RdtHeader.AbortAccepted` | common/rdt_receiver.py:106-110 | an ABORT is 20 bytes, numbered with the next packet, and passes the gates |
| `RdtHeader.AckAccepted` | common/rdt_sender.py:317-325 | an acknowledgment passes the sender's gate with its number |
| `RdtHeader.AckPassesAsData` | common/rdt_receiver.py:149-151 | an acknowledgment passes the receiver's gates as an empty data packet numbered 0 |
| `DatagramGates.DataIff` | common/rdt_receiver.py:88-155 | the receiver takes bytes as a data packet if and only if, cut to 1108, they are 20 at least, begin with the transfer ID, have flags of DATA, FIN, both or ACK, a length that is the payload's, and a checksum field that is the checksum of the other header bytes, the length widened to 32 bits, and the payload; number, FIN and payload are then those of the bytes |
| `DatagramGates.StartIff` | common/rdt_receiver.py:112-126 | it takes bytes as a START if and only if they are such an intact datagram with that flag alone and number 0 |
| `DatagramGates.AbortIff` | common/rdt_receiver.py:106-110 | it takes bytes as an ABORT if and only if they begin with the transfer ID, have the ABORT bit, and a checksum field that fits the header and no payload |
| `DatagramGates.AckIff` | common/rdt_sender.py:317-325 | the sender hears ACK k in bytes if and only if, cut to 84, they are such an intact header of its transfer with the ACK flag alone, length and number 0, and k in the ACK field |
| `DatagramGates.MetadataIff` | common/rdt_context.py:59-74 | metadata names a size, a mode and a type if and only if it is the size in eight bytes and the letters of mode and type; eight bytes alone are a legacy size |
| `DatagramGates.HeaderBytes` | common/RDTHeader.py:55-82 | each parsed field is the number that its bytes stand for in network order |
| `ModeCodec.ModeRoundTrip` | common/mode_codec.py:294-315 | for every file, chunking, wire the encoder may emit and re-chunking of it, decoding gives back the file, if and only if it is not Block mode with an empty last chunk |
| `ModeCodec.FramedPrefixFree` | common/mode_codec.py:306-315 | no accepted Block or Compressed wire is a proper prefix of another |
| `ModeCodec.FinishNeedsStop` | common/mode_codec.py:306-315 | no decoder finishes when its source raises: a broken transfer is never taken for a whole one |
| `ModeCodec.ModeCausal` | common/mode_codec.py:306-315 | in mid-stream: what a decoder has passed on when some chunks are all that it could pull is a prefix of what it passes on in the end, whatever comes behind them and however that ends |
| `ModeCodec.WireChunksFit` | common/mode_codec.py:26-28 | every wire chunk of a file holds 1 to 1024 bytes |
| `ModeCodec.EncodeChunks` | common/mode_codec.py:294-303 | the wire is one that the mode allows for the joined chunks, in Compressed mode the greedy one; if the source raises, what was emitted is the beginning of a wire that the mode allows for every continuation of the chunks, and lacks of the input only the last block, or at most 128 bytes, and what does not fill a wire chunk |
| `ModeCodec.DecodeChunks` | common/mode_codec.py:306-315 | bytes passed on and way of ending are those of the one-shot reading, for arbitrary wires, valid or not |
| `ModeCodec.BatchWire` | common/mode_codec.py:279-287 | the re-batched chunks are the joined bytes cut into full pieces and a remainder; on a raise only the full pieces are passed on |
| `CompressedMode.Encode` | common/mode_codec.py:164-211 | for every chunking, what is emitted is a greedy writing of the joined input: primitives that mean the input, runs of two or more, literals without equal neighbours, short literals only where a run or the end follows; a run shorter than 63 ends only before another byte, at the end of the input or at the end of a chunk. If the source raises, at most 128 bytes of the input are not yet written |
| `CompressedMode.UniformInput` | common/mode_codec.py:180-211 | n copies of one byte in one chunk are written as n / 63 runs of 63, one run or literal for what is left over if anything is, and the EOF escape |
| `CompressedMode.FillersByType` | common/mode_codec.py:70-75 | the byte written as a filler is the space in TYPE A and the zero byte in TYPE I, and no other byte is; the escape at the end is 00 40 |
| `CompressedMode.Decode` | common/mode_codec.py:214-276 | for arbitrary bytes in any chunks, bytes passed on and way of ending are those of the one-shot reading |
| `CompressedMode.CompressedRoundTrip` | common/mode_codec.py:164-276 | every writing that the encoder may emit for a byte string, in either type, reads back as that byte string |
| `CompressedMode.ExpansionBound` | common/mode_codec.py:180-211 | three times the encoded length is at most four times the input's plus ten, for every input and chunking |
| `CompressedMode.CutShortExtends` | common/mode_codec.py:171-209 | what the encoder has emitted when its source raises opens a writing of every longer input |
| `CompressedMode.AcceptedIffSentence` | common/mode_codec.py:231-276 | the decoder accepts exactly the sentences of the wire grammar, literals, runs, fillers and control escapes before one final EOF escape, and reads each as what it stands for |
| `CompressedMode.CompressedPrefixFree` | common/mode_codec.py:246-252 | bytes behind an accepted wire make it malformed |
| `CompressedMode.CompressedNeedsStop` | common/mode_codec.py:250-252 | with a source that raises the decoder never finishes |
| `CompressedMode.CompressedCausal` | common/mode_codec.py:231-272 | what is read of a wire stays read, whatever bytes come behind it |
| `CompressedMode.ParseWires` | common/mode_codec.py:254-272 | the wire of any primitives is read as their meaning, and the reading goes on behind them |
| `CompressedMode.NextPrimitive` | common/mode_codec.py:180-209 | one turn of the encoder takes a run or a literal off the front of the input, and a run where two equal bytes stand there; a run shorter than 63 is followed by another byte, by the end, or by a chunk not yet pulled |
| `CompressedMode.MeasureRun` | common/mode_codec.py:183-191 | the run found is one of equal bytes, is of length 1 only when the next byte differs or there is none, and is shorter than 63 only when another byte follows it or the buffer ends with it |
| `CompressedMode.ScanLiteral` | common/mode_codec.py:201-206 | the literal has no equal neighbours and ends at 127 bytes, before two equal bytes, or at the end of the buffer |
| `BlockMode.Encode` | common/mode_codec.py:99-112 | the blocks are the canonical cutting of the joined input; a bad block size is refused; on a raise all blocks but the last are passed on |
| `BlockMode.Decode` | common/mode_codec.py:115-153 | for arbitrary bytes in any chunks, payloads passed on and way of ending are those of the one-shot reading, an empty chunk behind the EOF block counting as trailing data |
| `BlockMode.BlocksShape` | common/mode_codec.py:104-112 | all blocks but the last are full, each counts its own payload in two bytes, high byte first, and the descriptor is 0x40 on the last and 0 on the others |
| `BlockMode.BlocksCount` | common/mode_codec.py:104-112 | there is one block for no bytes, and n over the block size, rounded up, for n bytes |
| `BlockMode.BlockRoundTrip` | common/mode_codec.py:99-153 | what the encoder wrote reads back as the input |
| `BlockMode.BlocksExtend` | common/mode_codec.py:104-112 | the full blocks of an input open the blocks of every longer input |
| `BlockMode.AcceptedIffSentence` | common/mode_codec.py:129-153 | the decoder accepts exactly the sequences of counted blocks with EOF on the last alone, and reads their payloads |
| `BlockMode.BlockPrefixFree` | common/mode_codec.py:146-153 | bytes behind an accepted wire make it malformed |
| `BlockMode.BlockNeedsStop` | common/mode_codec.py:149-152 | with a source that raises the decoder never finishes |
| `BlockMode.BlockCausal` | common/mode_codec.py:129-153 | what is read of a wire stays read, whatever bytes come behind it |
| `ChunkFeed.Feed.Fill` | common/mode_codec.py:171-178 | pulls chunks until enough is buffered, no further, and loses nothing; says whether the source ran out or raised |
| `FileHandler.ReadFileChunks` | common/file_handler.py:7-15 | a missing file is reported; otherwise the pieces are the file cut at the size, for positive, zero and negative sizes |
| `FileHandler.FilePiecesJoin` | common/file_handler.py:7-15 | the pieces join to the file for every size but 0 |
| `PathLocks.PathLockRegistry.Register` | common/filesystem_service.py:70-77 | the paths are sorted without repetition; each key gets one user more; a key in the table keeps its lock, a new one gets a lock that no other key has |
| `PathLocks.PathLockRegistry.Unregister` | common/filesystem_service.py:86-92 | each key has one user less, its entry goes exactly with its last user, and every other entry keeps its lock |
| `PathLocks.KeysAscend` | common/filesystem_service.py:70-70 | the keys of an acquisition are its paths, in ascending order, each once |
| `PathLocks.CanRegister` | common/filesystem_service.py:73-77 | a key can be registered in any table, whether or not it is there |
| `PathLocks.PrefixIsLess` | common/filesystem_service.py:218-224 | a directory's path comes before the paths inside it, so the nested acquisition ascends too |
| `PathLocks.LessTransitive` | common/filesystem_service.py:70-70 | the order of keys is transitive |
| `LockSystem.RegistryCorrect` | common/filesystem_service.py:68-92 | in every reachable state an entry exists exactly while its key has registrations and counts them; users of a key share one lock, and different keys have different ones; no two threads are inside the same key; when all are done the table is empty |
| `LockSystem.MutualExclusion` | common/filesystem_service.py:79-85 | two threads that both have a key are the same thread, although the key's entry may have come and gone |
| `LockSystem.DeadlockFree` | common/filesystem_service.py:69-92 | while any thread is in an acquisition, some thread in one can go on, nested acquisitions included |
| `LockSystem.ChainEnds` | common/filesystem_service.py:79-80 | following who waits for whom, the awaited keys ascend, and the chain ends at a thread that can step |
| `LockSystem.StepKeeps` | common/filesystem_service.py:73-92 | every step of any thread keeps the invariant of table, locks held and counts |
| `LockSystem.CanUnregister` | common/filesystem_service.py:86-92 | an ascending list of registered keys can always be given back |
| `AtomicUpload.FilesystemService.Upload` | common/filesystem_service.py:226-278 | commits exactly when the parent is a directory, the target is not, the source does not raise, no cancel is seen and no file operation fails; then the target holds the bytes, behind those it held before when appending to a file; otherwise nothing changes and no temporary file is left |
| `AtomicUpload.FilesystemService.WriteAll` | common/filesystem_service.py:254-259 | the write loop checks the cancel event before each chunk, and on success has written exactly the joined chunks and counted them |
| `AtomicUpload.FilesystemService.Fill` | common/filesystem_service.py:248-262 | the temporary file gets the target's bytes first when appending to a file, then the chunks, and nothing else |
| `UploadSystem.Linearisation` | common/filesystem_service.py:226-278 | for any interleaving of STOR, APPE and STOU by any threads, with failures and cancels anywhere: the files are the replay of the successful uploads in commit order, each logged once with all its bytes; uncommitted paths are untouched; every temporary file belongs to an unfinished upload |
| `UploadSystem.StepEffect` | common/filesystem_service.py:264-266 | only the replacement changes a file, only its own target: to all bytes that the upload wrote, for APPE behind those that the target holds at that moment if it is a file |
| `UploadSystem.ReplayLast` | common/filesystem_service.py:248-264 | what the replay of a log leaves at the path of its last commit: that commit's bytes, for APPE behind what the commits before it left there if it is a file |
| `UploadSystem.CanFail` | common/filesystem_service.py:254-278 | in every reachable state an upload with a temporary file can fail or be cancelled before its commit, and then removes that file and changes no other |
| `UploadSystem.CanGiveUp` | common/filesystem_service.py:238-240 | an upload that has its lock and no temporary file yet can fail, and changes nothing |
| `UploadSystem.StouIsUnique` | common/filesystem_service.py:214-224 | a STOU commit is in the directory asked for, over no file that was there to begin with, and under a name that no other STOU commits under; if it replaces a file, a STOR or APPE had committed it there |
| `UploadSystem.NamesKeep` | common/filesystem_service.py:219-224 | in every reachable state no two STOUs at work or committed have the same name: the directory's lock is held from the choice of the name to the commit |
| `LockSystem.SameParent` | common/filesystem_service.py:220-221 | no path is the join of two different resolved directories with a file name |
| `UploadSystem.StepKeeps` | common/filesystem_service.py:238-278 | every step of any upload keeps the invariant of locks, temporary files, log and files |
| `UploadSystem.ReplayUntouched` | common/filesystem_service.py:264-266 | replaying commits to other paths leaves a path as it was |
| `UploadSystem.UploadsProgress` | common/filesystem_service.py:238-278 | while any upload has locks or waits for them, some upload can go on with what it has to do: take or give back a lock, pick a name and register it, make its file, copy, commit or clean up; not by failing, by starting another, or by writing ever more |
| `Framing.ClientHandler.Run` | server/client_handler.py:53-83 | however TCP cuts the stream, the lines handled are exactly its CRLF-separated lines in order, up to the first whose handling ends the session |
| `Framing.ReceivedJoins` | server/client_handler.py:57-61 | only the joined stream matters, not its segments |
| `Framing.FirstCrlfIsFirst` | client/ftp_client.py:298-303 | the place of the first CRLF is one, none stands before it, and it is -1 exactly when there is none |
| `Framing.LinesRoundTrip` | server/client_handler.py:62-63 | lines without CRLF, each ended by one, are cut out as they were, whatever unfinished line follows |
| `Framing.ControlConnection.RecvLine` | client/ftp_client.py:297-305 | the first line of the stream, however it is cut; nothing behind it is lost; a connection closed before a CRLF is an error |
| `Framing.ControlConnection.RecvReply` | client/ftp_client.py:273-283 | the first reply of the stream, multi-line or not, and nothing behind it is lost |
| `Framing.ReplyReads` | client/ftp_client.py:273-283 | a reply as the server composes it, a line that does not begin with three digits and a hyphen, or lines between one that does and the first that begins with the same digits and a space, is read whole, whatever follows |
| `Framing.CutReplyIsError` | client/ftp_client.py:297-305 | a connection that closes inside a multi-line reply gives an error, whatever lines of it have come |
| `Framing.RepliesRoundTrip` | client/ftp_client.py:273-305 | reading as many replies as were sent gives exactly those, multi-line ones included, and leaves every byte behind them |

## Left out

- RdtReceiver.ReceiveChunks: a peer's address is not modelled; a datagram from another address is one of those that are dropped, and until a START or data packet fixes the peer any address is taken for it. A missing transfer ID hint, a missing mode or type expectation and the legacy START without MODE and TYPE are not modelled either: the callers always pass all three, and then a legacy START fails the transfer as a differing one does.
- RdtReceiver.FinGrace: damage that makes some other datagram look like the FIN is an event of its own, since the grace period does not verify the checksum.
- RdtSender.SendChunks: the chunks are a sequence known beforehand, with the packet at which asking for it raises, if any.
- RdtSender.Receive: a Python dictionary is walked in insertion order, which here is number order.
- SenderBounds.RunBounds: counts receives, not seconds; no clock is modelled.
- ReliableTransfer.SuccessDelivers: its converse is false, by `FalseFailure`; a receiver that completed says nothing of the sender.
- RdtHeader.PacketAccepted: packet numbers are taken to fit 32 bits, as the header needs; the code has no wrap-around. Nothing is assumed of the checksum function, so nothing is said about how well it detects damage.
- ModeCodec.DecodeChunks: a decoder reads a sequence of chunks and then learns how it ended, where the program's pulls as it goes. What it has passed on in mid-stream is that of the chunks pulled so far, by `ModeCausal` a prefix of the whole; once the wire is malformed it stops pulling, which fails the transfer either way.
- UploadSystem.Linearisation: one upload for each thread; deletions, renames and directory changes do not run in between.
- AtomicUpload.FilesystemService.Upload: a failure after the replacement, and a failure to remove the temporary file, are not modelled; neither touches the target.
- TransferManager.Receive: a store loop that waits for the next datagram is a result of its own, without its temporary file.
- Download.ReceiveFile: a loop that waits for the next datagram is a result of its own, without its temporary file.
- EndToEnd.UploadsAreExact: a cancel, a fault and a raising source are one failing step, possible at any time before the commit; which of them it was is told only by `TransferManager.Receive`.
- Framing.ControlConnection.RecvReply: gives the bytes of the reply; their decoding as UTF-8 is left out.
- Framing.ClientHandler.Run: whether handling the k-th line ends the session is a parameter; decoding a line and handling its command are left out.
- Sockets, host names, ports, PASV and PORT texts, UDP readiness probes and login: input and output.
- The mapping of transfer IDs by SHA-256: foreign mathematics.
- Path resolution, symbolic links, permissions, listings and time stamps: operating-system behaviour; a resolved path is an opaque string.
- The reading of directory listings on the control connection: it stops at any line whose first three bytes look like a final code, so it has no round trip.
- The sending side of a download on the server, the command dispatcher, session fields, thread registry, logging, progress callbacks and the command line: they would only add easy members.
- Normalisation of mode and type names: modes and types are datatypes.
