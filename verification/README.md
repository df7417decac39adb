# DTLS, digest, calendar, allocator and FLV logic: a verified model

This project models the parts of the repository whose correctness is hardest to see, and proves what they
promise. `dafny verify dfyconfig.toml` checks all of it.

* **DTLS handshake messages** (`d1_both.c`). `FragmentPlan` says how a message is cut at changing MTUs;
  `HandshakeWriter` is the sender, which writes fragment headers over octets already sent and keeps the
  retransmission queue; `WriteNumbers`, `SendOrder` and `SendQueue` are what its numbering and its queue
  guarantee, `Flights`, `ClientFlights` and `ServerFlights` carry that over to every run of the two handshake
  drivers, and `Resending` compares a retransmission with the first sending. `ReceiveSpec` is the receiver on values;
  `Bitmask`, `HmFragment` and `MessageReader` are the receiver on buffers and objects, proved to do just that.
  `OrderedDelivery`, `Coverage` and `EndToEnd` put sender, an adversarial network and receiver together: ordered
  exactly-once delivery, the fragmentation round trip, and equal handshake hashes at both ends; `Blocking` says over
  whole runs when a receiver can be kept from delivering, `PutBack` what becomes of a message that is put back to be
  read again, and `WireForms` where the octets stand.
* **DTLS records** (`d1_pkt.c`). `SatSub` is the saturating byte-wise subtraction, `ReplayWindow` the sliding
  bitmap as a set of numbers, `RecordSpec` and `RecordReader` how records come in across epochs, `RecordRepeats` when
  one of them is processed twice, `RecordHandout` which of them reach the caller and in what order.
* **Streaming digests** (`md32_common.h`). `HashPadding` and `HashForm` are the padded message a digest is defined on,
  `HashCollector` the context that meets its input in pieces.
* **Calendar arithmetic** (`o_time.c`). `Calendar` and `GmtimeAdj`.
* **The debug allocator** (`mem_dbg.c`). `MemInfo`, `MemRuns`, `MemBooks` and `MemDebugger` are the reference-counted
  info stacks; `MemCheckLocks` is the two-lock protocol that switches checking off and on, `MemCheckCalls` what a
  whole call does amid the steps of other threads.
* **Resuming an FLV download** (`rtmpdump-jni.c`). `FlvFile`, `FlvScan`, `FlvResume` and `FlvForward`; `FlvBackward`
  has the backward walk on files that are not well-formed, `FlvFlags` the header's flags.
* **The handshake drivers** (`d1_clnt.c`, `d1_srvr.c`). `ClientDriver` and `ServerDriver`, with helpers that may
  succeed, fail or have to be tried again. `ClientTrace` and `ServerTrace` write down the protocol's handshakes as
  sequences of messages and prove that the drivers complete no other, `ClientReplay` and `ServerReplay` that they
  complete each of them.

Code that changes things in place is a class or a method over arrays, proved against a function on values; what is
promised is then proved about the function, over all inputs and all runs. Locks and drivers, whose steps interleave
with other threads or with the environment, are state machines.

## What does not hold

Some properties one would expect fail, and the model says exactly when:

* A handshake write that is resumed after a failed flush numbers its fragments from 0 again and hashes the header
  again; it is sound exactly when the first call had sent nothing (`FragmentPlan.ResumedWriteCoversIff`,
  `FragmentPlan.ResumedHashIff`), and its fragments announce octets they do not carry (`EndToEnd.ResumedIsHonestIff`).
* The record-length assertion of `dtls1_write_bytes` fails exactly for long rests of a message under a very large
  budget (`FragmentPlan.PlannedCutFitsIff`), and a late fragment can make a datagram exceed the MTU
  (`FragmentPlan.DatagramFitsIff`), for every fragment of every plan.
* A client that renegotiates after a resumed handshake has its new hello queued before the ChangeCipherSpec and
  Finished of the handshake before, and retransmits in that order (`ClientFlights.DisorderIff`,
  `ClientFlights.DisorderExample`).
* A partial entry stays behind when its message then arrives in one piece, and blocks the next fragmented message
  (`Coverage.LeftoverEntryBlocksNext`). Over whole runs this takes a read that delivers a message from the wire while
  an entry of its number is queued (`Blocking.NothingOlderIff`); otherwise what has arrived is delivered
  (`Blocking.CoveredIsDelivered`).
* The saturating subtraction is not a clamp near the two ends of its range (`SatSub.SaturatedIsClampIff`).
* A record buffered for the next epoch is not checked again when it is processed: it is processed twice exactly when
  its number has been seen by then and the drain comes to it (`RecordRepeats.DrainRepeatsIff`,
  `RecordRepeats.NoRecordTwiceIff`), which takes a drain that stopped early (`RecordRepeats.PassingDrainsNeverRepeat`,
  `RecordRepeats.QueuedRecordCanRepeat`).
* Recording an allocation at a tracked address can strand a node (`MemRuns.NoGarbageIff`); a reallocation that lands
  on a tracked address loses a reference (`MemRuns.CountsExactIff`).
* MALLOC2 is not held exactly while the count is positive, as a comment has it (`MemCheckLocks.Malloc2HeldIff`).
* A call that finds a resumed handshake finished but not yet reported clears `hit` first, and reports it complete with
  `hit` at 0 (`ClientDriver.DoneIsSafe` and `ServerDriver.DoneIsSafe` have the exact condition).

Two conditions are exact for the functions alone and never fail under the drivers. Retransmitting a message older than
the epoch before the current one could repeat a record number (`WriteNumbers.OldEpochReplayRepeatsIff`), but the
drivers empty `sent_messages` between any two changes of the write epoch (`ClientFlights.NumbersNeverRepeat`,
`ServerFlights.NumbersNeverRepeat`). Queue keys would collide or run backward if two ChangeCipherSpecs were adjacent or
one opened a handshake (`SendQueue.QueueIsSendOrderIff`), but the server's queue is always in the order of sending
(`ServerFlights.AlwaysInOrder`), and the client's is but for the case above (`ClientFlights.InOrderUnlessWaiting`).

Where code and comments differ the model follows the code: the message type a caller of `dtls1_get_message` asks for
is checked for put-back messages only; `CRYPTO_push_info_` always returns zero; in audio files the frames skipped
from the end are tags of any kind.

## Model

| member | source | states |
|---|---|---|
| `HandshakeHeader.ParseOfWrite` | jni/openssl/ssl/d1_both.c:1369-1382 | a handshake header that fits its fields comes back from its twelve octets |
| `HandshakeHeader.WriteOfParse` | jni/openssl/ssl/d1_both.c:1405-1416 | any twelve octets come back from the header read from them |
| `WireForms.HeaderIsItsFields` | jni/openssl/ssl/d1_both.c:1369-1416 | twelve octets are what is written for a header, and what a header is read from, exactly when type, length, number, offset and fragment length stand in them in this order, most significant octet first |
| `WireForms.WriterIsHonest` | jni/openssl/ssl/d1_both.c:274-398 | every octet string the writer emits of a message, under the header it saves for it, is to the reader a fragment of that message |
| `FragmentPlan.ChooseMtuIsUsable` | jni/openssl/ssl/d1_both.c:232-270 | the MTU a write starts with is at least the smallest known one exactly unless querying is forbidden and a smaller one is set; otherwise it is the set one, the answer to the query, or 1472, whichever comes first that is not too small |
| `FragmentPlan.GuessIsNextLower` | jni/openssl/ssl/d1_both.c:1390-1403 | a guess is the largest of 1472, 484 and 228 below the current MTU, or the current one when none is below |
| `FragmentPlan.PlanPartitions` | jni/openssl/ssl/d1_both.c:285-398 | the fragments of a message are contiguous, non-empty, within the message, and reach its end exactly when the write gets through |
| `FragmentPlan.ContiguousCoversOnce` | jni/openssl/ssl/d1_both.c:285-398 | contiguous fragments carry every octet of their range exactly once and nothing else |
| `FragmentPlan.PlannedCutFitsIff` | jni/openssl/ssl/d1_both.c:305-328 | for every fragment of every plan: when it stays within the MTU budget of its iteration, and when its record is too long for the record-length assertion, both as equivalences |
| `FragmentPlan.DatagramFitsIff` | jni/openssl/ssl/d1_both.c:285-328 | for every fragment of every plan: with its headers, MAC, padding and what waits in the BIO unflushed, it keeps to the MTU exactly unless it is a late one that carries the last 12 octets or less |
| `FragmentPlan.DatagramIsFilled` | jni/openssl/ssl/d1_both.c:305-318 | no fragment is smaller than it need be: it carries the rest, fills the datagram to the MTU, or stops 12 octets short of a rest that would have fitted |
| `FragmentPlan.StopsIffBlocked` | jni/openssl/ssl/d1_both.c:285-301 | a write stops early exactly when what waits leaves no room for an octet of the message and the flush fails |
| `FragmentPlan.RecordsFitSuffices` | jni/openssl/ssl/d1_pkt.c:1453-1461 | the record-length assertion cannot fail when the link or the message leaves room for a record |
| `FragmentPlan.SenderHashesCanonicalForm` | jni/openssl/ssl/d1_both.c:353-380 | whatever MTUs occur, the octets hashed are the unfragmented header and the whole body |
| `FragmentPlan.ResumedWriteCoversIff` | jni/openssl/ssl/d1_both.c:274-310 | a write resumed after a failed flush numbers its fragments from 0 again: both calls together cover the message exactly when the first had sent nothing |
| `FragmentPlan.ResumedHashIff` | jni/openssl/ssl/d1_both.c:353-380 | both calls of a resumed write hash the message in its canonical form exactly when the first had sent nothing |
| `HandshakeWriter.HandshakeWriter.DoWrite` | jni/openssl/ssl/d1_both.c:226-398 | the in-place fragment loop ends, emits exactly the planned fragments and hash input under the current epoch, and leaves init_off and init_num at the unsent rest |
| `HandshakeWriter.HandshakeWriter.Turn` | jni/openssl/ssl/d1_both.c:285-398 | one pass of the loop keeps init_off + init_num at the end of the message and never overwrites an octet still to be sent |
| `HandshakeWriter.HandshakeWriter.WriteFragment` | jni/openssl/ssl/d1_both.c:320-380 | a header written over sent octets, the record, and the hash input as if the message had one fragment |
| `HandshakeWriter.HandshakeWriter.DoWriteCcs` | jni/openssl/ssl/d1_both.c:285-398 | a ChangeCipherSpec goes out as one record of one octet, or not at all when a flush fails |
| `HandshakeWriter.HandshakeWriter.Prepare` | jni/openssl/ssl/d1_both.c:963-988 | a sender fills init_buf, takes the next number, and queues the message for retransmission unless its kind is not kept |
| `HandshakeWriter.HandshakeWriter.BufferMessage` | jni/openssl/ssl/d1_both.c:1156-1217 | the saved message carries header, octets, cipher state and epoch of its first sending, under its key |
| `HandshakeWriter.HandshakeWriter.ChangeWriteEpoch` | jni/openssl/ssl/d1_pkt.c:1872-1893 | the epoch counts up, the old counter is kept as last_write_sequence, and the new one starts at zero |
| `HandshakeWriter.HandshakeWriter.ResendUnderOwnState` | jni/openssl/ssl/d1_both.c:1265-1302 | a saved message goes out under its own epoch, cipher state and counter, and everything current is put back |
| `HandshakeWriter.HandshakeWriter.RetransmitMessage` | jni/openssl/ssl/d1_both.c:1219-1309 | the message found under the key is sent again under its first state; current epoch, state and hash do not change |
| `Resending.ResentAsFirstSent` | jni/openssl/ssl/d1_both.c:1219-1309 | over a link of the same kind a kept message goes out again record by record as at first, in type, epoch, cipher state and octets, whatever has become current |
| `HandshakeWriter.HandshakeWriter.RetransmitBufferedMessages` | jni/openssl/ssl/d1_both.c:1130-1153 | a retransmission replays the whole queue in order, each message under its own state and numbering |
| `HandshakeWriter.HandshakeWriter.ClearRecordBuffer` | jni/openssl/ssl/d1_both.c:1311-1323 | the loop ends and leaves an empty queue |
| `WriteNumbers.StepKeepsInv` | jni/openssl/ssl/d1_both.c:1265-1302 | write_sequence is the next number of w_epoch and last_write_sequence that of the epoch before, after every step |
| `WriteNumbers.NumbersNeverRepeat` | jni/openssl/ssl/d1_pkt.c:1622-1645 | over every run of writes, epoch changes and retransmissions from the last two epochs no epoch and sequence number is used twice |
| `WriteNumbers.InitialInv` | jni/openssl/ssl/d1_lib.c:201-243 | the state of a fresh connection satisfies that invariant |
| `WriteNumbers.OldEpochReplayRepeatsIff` | jni/openssl/ssl/d1_both.c:1281-1301 | a retransmission repeats a number exactly when its epoch is older than the one before and has used more numbers than the current one |
| `SendOrder.KeysIncreaseIff` | jni/openssl/ssl/d1_both.c:1115-1127 | the queue keys of a handshake increase exactly when no two ChangeCipherSpecs are adjacent and none opens it at number 0 |
| `SendOrder.CcsBetweenNeighbours` | jni/openssl/ssl/d1_both.c:1115-1127 | a ChangeCipherSpec is ordered between the message before it and the Finished that shares its number |
| `SendQueue.QueueIsSendOrderIff` | jni/openssl/ssl/d1_both.c:1156-1217 | the retransmission queue holds every kept message in the order first sent under exactly that condition |
| `Flights.FlightPermittedIff` | jni/openssl/ssl/d1_both.c:1129-1153 | replaying a queue of messages of the last two epochs is permitted exactly as far as the counters have room |
| `ClientFlights.NumbersNeverRepeat` | jni/openssl/ssl/d1_clnt.c:357-657 | on every run of the client's driver, with retransmissions and other records anywhere between its steps, kept messages are of the last two epochs and no record number is used twice |
| `ClientFlights.WholeFlightNeverRepeats` | jni/openssl/ssl/d1_lib.c:391-451 | at any point of such a run the whole queue may be sent again without repeating a number |
| `ClientFlights.InOrderUnlessWaiting` | jni/openssl/ssl/d1_clnt.c:357-657 | the client's retransmission queue is in the order of sending except while a hello is out |
| `ClientFlights.DisorderIff` | jni/openssl/ssl/d1_clnt.c:290-324 | it gets out of order exactly when a hello is prepared while a message with a higher key is still kept |
| `ClientFlights.DisorderExample` | jni/openssl/ssl/d1_clnt.c:721-723 | a run in which it does: a resumed handshake, then renegotiation |
| `ServerFlights.NumbersNeverRepeat` | jni/openssl/ssl/d1_srvr.c:293-741 | the same for every run of the server's driver |
| `ServerFlights.WholeFlightNeverRepeats` | jni/openssl/ssl/d1_lib.c:391-451 | and for the whole of its queue sent again |
| `ServerFlights.AlwaysInOrder` | jni/openssl/ssl/d1_srvr.c:293-760 | the server's retransmission queue is in the order of sending on every run |
| `Bitmask.Mark` | jni/openssl/ssl/d1_both.c:128-137 | MARK sets the bits start to end-1 and no other, through the start and end tables |
| `Bitmask.IsComplete` | jni/openssl/ssl/d1_both.c:139-146 | IS_COMPLETE holds exactly when every bit below msg_len is set, given that none is set beyond |
| `Bitmask.CompleteIff` | jni/openssl/ssl/d1_both.c:139-146 | the byte-wise test of completeness, as an equivalence with the bits |
| `HmFragments.HmFragment.TakeIn` | jni/openssl/ssl/d1_both.c:619-659 | a fragment is copied to its offset, its range joins the mask, and the mask is dropped exactly when the ranges cover the message |
| `MessageReader.MessageReader.PreprocessFragment` | jni/openssl/ssl/d1_both.c:479-526 | the checks on a fragment header, and what the first fragment sets up |
| `MessageReader.MessageReader.RetrieveBufferedFragment` | jni/openssl/ssl/d1_both.c:528-581 | the buffered message is handed out exactly when it heads the queue, is complete and is the expected one |
| `MessageReader.MessageReader.ReassembleFragment` | jni/openssl/ssl/d1_both.c:584-685 | a proper fragment joins the partial entry of its message or starts one |
| `MessageReader.MessageReader.ProcessOutOfSeqMessage` | jni/openssl/ssl/d1_both.c:687-770 | a message that is not the expected one is dropped or queued, within ten numbers of it |
| `MessageReader.MessageReader.ReceiveFragment` | jni/openssl/ssl/d1_both.c:772-888 | one received handshake fragment in all its cases |
| `MessageReader.MessageReader.Finish` | jni/openssl/ssl/d1_both.c:438-470 | the header is rebuilt, the message hashed as if never fragmented, and the next number expected |
| `MessageReader.MessageReader.GetMessage` | jni/openssl/ssl/d1_both.c:405-470 | a whole read: put-back messages, buffered ones, and fragments until a message is complete |
| `PutBack.ReadIsSeen` | jni/openssl/ssl/d1_both.c:405-470 | in every run a read that delivers a message shows the caller just its octets and their number, at most `max` |
| `PutBack.PutBackIsReadAgain` | jni/openssl/ssl/d1_both.c:417-430 | in every run a message put back is read again exactly when its own type or any type is asked for, looks as before, and is neither counted nor hashed again; any other read fails |
| `OrderedDelivery.AbsorbFaithful` | jni/openssl/ssl/d1_both.c:619-659 | a partial entry goes on holding exactly the octets of the message in the ranges received |
| `OrderedDelivery.ReceiveKeepsGood` | jni/openssl/ssl/d1_both.c:772-888 | after any honest fragment the reader is good, or has the expected message ready intact |
| `OrderedDelivery.RetrieveKeepsGood` | jni/openssl/ssl/d1_both.c:528-581 | a buffered message that is handed out is the expected one, intact |
| `OrderedDelivery.FinishKeepsGood` | jni/openssl/ssl/d1_both.c:438-470 | finishing a message appends exactly it to the deliveries and its canonical form to the hash |
| `OrderedDelivery.ReadKeepsGood` | jni/openssl/ssl/d1_both.c:405-470 | a read delivers the next message of the sender or none |
| `EndToEnd.DeliveredIsPrefix` | jni/openssl/ssl/d1_both.c:405-470 | under any reordering, duplication and loss the messages returned are a prefix of those sent, in order and intact |
| `EndToEnd.FreshReaderIsGood` | jni/openssl/ssl/d1_lib.c:201-243 | a reader that has read nothing yet satisfies the invariant those runs keep |
| `EndToEnd.EmittedIsHonest` | jni/openssl/ssl/d1_both.c:285-398 | every fragment of every emission at any MTUs is what the receiver takes an honest fragment to be |
| `EndToEnd.ResumedIsHonestIff` | jni/openssl/ssl/d1_both.c:274-310 | a fragment of a resumed write announces octets that the message really has there exactly when it has the same octets at both places |
| `EndToEnd.SenderTranscript` | jni/openssl/ssl/d1_both.c:353-380 | over all messages the sender hashes the unfragmented handshake |
| `EndToEnd.TranscriptsAgree` | jni/openssl/ssl/d1_both.c:443-457 | after any run of a fresh reader it has hashed a prefix of what the sender hashes, and all of it once everything is delivered (section 4.2.6 of RFC 4347) |
| `Coverage.RetrieveIff` | jni/openssl/ssl/d1_both.c:528-581 | when a buffered message is handed out, in terms of the octets held |
| `Coverage.ReceiveFinds` | jni/openssl/ssl/d1_both.c:584-770 | what one packet does to the entry of its own number, and that it leaves those of all others alone |
| `Coverage.DeliveredIffCovered` | jni/openssl/ssl/d1_both.c:584-685 | whatever honest traffic arrives, of any messages, the expected one is delivered exactly when it comes in one piece, or its fragments cover what is missing and no older entry heads the queue |
| `Coverage.FutureIffCovered` | jni/openssl/ssl/d1_both.c:687-770 | a message up to ten numbers ahead is complete in the queue exactly when its fragments cover what was missing or the first of its packets was the whole |
| `Coverage.HelloRequestIsSkipped` | jni/openssl/ssl/d1_both.c:823-842 | a client never delivers an empty HelloRequest from the wire, whatever else arrives: it is neither counted nor hashed |
| `Coverage.EmissionCovers` | jni/openssl/ssl/d1_both.c:285-398 | the packets of one complete emission bring the message in one piece or cover it, whatever else arrives with them |
| `Coverage.FragmentedMessageRoundTrip` | jni/openssl/ssl/d1_both.c:285-398 | once all fragments of one emission have arrived, mixed with fragments at other MTUs and with any other messages, the message is delivered with the octets sent |
| `Coverage.LeftoverEntryBlocksNext` | jni/openssl/ssl/d1_both.c:528-581 | a partial entry left behind by a message delivered whole keeps the next one from being delivered in fragments, whatever arrives |
| `Blocking.NothingOlderIff` | jni/openssl/ssl/d1_both.c:405-470 | over every run on an honest network, no entry of a delivered message is left exactly when no read took a message from the wire while an entry of its own number was queued |
| `Blocking.CoveredIsDelivered` | jni/openssl/ssl/d1_both.c:405-470 | from a fresh reader, as long as that never happened, the next read delivers the expected message exactly when it has come in one piece or its fragments cover what is missing |
| `SatSub.SatSub64be` | jni/openssl/ssl/d1_pkt.c:126-167 | the byte loop with borrow and saturation computes Saturated of the difference |
| `SatSub.SaturatedSign` | jni/openssl/ssl/d1_pkt.c:126-167 | for all 64-bit values: true sign, exact on [-128, 127], magnitude at least 128 otherwise |
| `SatSub.SaturatedIsClampIff` | jni/openssl/ssl/d1_pkt.c:126-167 | the result is the difference clamped to [-128, 128] exactly when it is not within 127 of either end of the 65-bit range |
| `SatSub.PathsAgreeOnSequenceNumbers` | jni/openssl/ssl/d1_pkt.c:130-143 | below 2^48 byte loop and machine-word path agree and are the clamped difference |
| `ReplayWindow.CheckIff` | jni/openssl/ssl/d1_pkt.c:1673-1693 | the check passes exactly for numbers newer than the window or inside it and never accepted |
| `ReplayWindow.UpdateRefines` | jni/openssl/ssl/d1_pkt.c:1696-1717 | the updated window stands for the accepted set with the new number |
| `RecordSpec.ProcessKeepsSafe` | jni/openssl/ssl/d1_pkt.c:375-547 | processing a record keeps the window equal to the set of numbers processed; failed authentication changes nothing |
| `RecordSpec.GetRecordKeepsSafe` | jni/openssl/ssl/d1_pkt.c:551-732 | one call of dtls1_get_record keeps it, whatever the wire brings |
| `RecordSpec.ChangeEpochKeepsSafe` | jni/openssl/ssl/d1_pkt.c:1872-1883 | a change of the read epoch keeps it |
| `RecordSpec.NoWireRecordTwice` | jni/openssl/ssl/d1_pkt.c:679-715 | over every run and every choice of what arrives, no record from the wire is processed twice |
| `RecordSpec.StartIsSafe` | jni/openssl/ssl/d1_lib.c:201-243 | a fresh connection starts with windows that stand for the empty set |
| `RecordSpec.WireRecordProcessedIff` | jni/openssl/ssl/d1_pkt.c:679-715 | exactly which records from the wire are processed, and that others leave the window alone |
| `RecordRepeats.DrainRepeatsIff` | jni/openssl/ssl/d1_pkt.c:298-330 | processing the buffered records processes none a second time exactly when none of the authentic ones at their head has been seen in the epoch |
| `RecordRepeats.NoRecordTwiceIff` | jni/openssl/ssl/d1_pkt.c:551-732 | over every run no record, wired or buffered, is processed twice exactly when that holds before every call |
| `RecordRepeats.PassingDrainsNeverRepeat` | jni/openssl/ssl/d1_pkt.c:298-330 | from the start of a connection nothing is processed twice as long as no drain stops at a failing record |
| `RecordRepeats.QueuedRecordCanRepeat` | jni/openssl/ssl/d1_pkt.c:298-330 | a run from the start of a connection in which a record is processed from the wire and then from the buffer |
| `RecordHandout.NothingIsLost` | jni/openssl/ssl/d1_pkt.c:551-732 | over every run from the start of a connection the records handed out and those waiting are, as multisets of epoch and number, the records processed |
| `RecordHandout.TraceHolds` | jni/openssl/ssl/d1_pkt.c:239-296 | from any state: the rest is what a full queue or an equal number turned away, which is nothing exactly when every call finds room for what is due |
| `RecordHandout.RoomLasts` | jni/openssl/ssl/d1_pkt.c:298-330 | every call of every run from the start of a connection does find room |
| `RecordHandout.NothingHandedOutTwice` | jni/openssl/ssl/d1_pkt.c:268-280 | a run that processes no record twice hands none out twice |
| `RecordHandout.BufferedComeFirst` | jni/openssl/ssl/d1_pkt.c:563-576 | while a processed record waits or is due, a call takes nothing from the wire and hands out the one with the smallest number; otherwise it hands out the first record of the wire that is processed |
| `RecordHandout.QueueComesOut` | jni/openssl/ssl/d1_pkt.c:268-280 | while nothing is due, calls hand out the queue front to back, one record each, and change nothing else |
| `RecordHandout.WireRecordQueuedIff` | jni/openssl/ssl/d1_pkt.c:702-715 | exactly which records from the wire are kept for the next epoch |
| `RecordReader.RecordReader.ReplayCheck` | jni/openssl/ssl/d1_pkt.c:1673-1693 | the check on the stored bitmap and the eight-octet numbers |
| `RecordReader.RecordReader.BitmapUpdate` | jni/openssl/ssl/d1_pkt.c:1696-1717 | the in-place update of bitmap and maximum |
| `RecordReader.RecordReader.ProcessBufferedRecords` | jni/openssl/ssl/d1_pkt.c:298-330 | buffered records of the current epoch are processed in order until one fails |
| `RecordReader.RecordReader.GetRecord` | jni/openssl/ssl/d1_pkt.c:551-732 | buffered records first, then the wire until a record passes |
| `RecordReader.RecordReader.ResetReadSeqNumbers` | jni/openssl/ssl/d1_pkt.c:1872-1883 | the next epoch takes over the next window |
| `HashCollector.HashCtx.Update` | jni/openssl/crypto/md32_common.h:282-338 | however data comes, done and waiting octets together are the input, the state is the fold over all whole blocks, and (Nh,Nl) the length |
| `HashCollector.HashCtx.NumIsRemainder` | jni/openssl/crypto/md32_common.h:282-338 | num is the total length modulo the block size |
| `HashCollector.HashCtx.Final` | jni/openssl/crypto/md32_common.h:347-383 | the final state is that of the padded message hashed in one go; the buffer is cleared |
| `HashCollector.HashChunks` | jni/openssl/crypto/md32_common.h:282-383 | for every way of cutting the input into chunks the digest state is that of the whole |
| `HashPadding.CountMore` | jni/openssl/crypto/md32_common.h:290-297 | the carry code adds eight times the length to the 64-bit count |
| `HashPadding.LengthFromWords` | jni/openssl/crypto/md32_common.h:364-370 | the two words written in either order are the 64-bit length in that byte order |
| `HashPadding.FoldPaddedShort` | jni/openssl/crypto/md32_common.h:347-383 | the padded message ends in one block when the length still fits behind the marker |
| `HashPadding.FoldPaddedLong` | jni/openssl/crypto/md32_common.h:351-361 | and in two when it does not |
| `HashPadding.ZeroCountIsLeast` | jni/openssl/crypto/md32_common.h:351-363 | no smaller number of zeros would align the length |
| `HashPadding.PaddingIsInjective` | jni/openssl/crypto/md32_common.h:347-383 | the padding can be taken off again for lengths below 2^64 bits |
| `HashForm.PaddedForm` | jni/openssl/crypto/md32_common.h:347-383 | the padded message octet by octet: the message, 128, fewer than 64 zeros, and the number of bits modulo 2^64 in either octet order |
| `Calendar.JulianToDateInverts` | jni/openssl/crypto/o_time.c:301-323 | julian_to_date undoes date_to_julian on every Gregorian date from year -4799 on, without upper limit |
| `Calendar.NextDayIsNext` | jni/openssl/crypto/o_time.c:301-307 | consecutive days have consecutive numbers across month ends, leap days and century years |
| `Calendar.EveryDayIsADate` | jni/openssl/crypto/o_time.c:309-323 | every day number from the first date on is the number of a valid date |
| `Calendar.JulianIsMonotone` | jni/openssl/crypto/o_time.c:301-307 | day numbers are ordered as dates are |
| `GmtimeAdj.AdjustIsExact` | jni/openssl/crypto/o_time.c:238-296 | an adjustment succeeds exactly when the target second lies in 1900 to 9999, and yields the normalised time of that second |
| `GmtimeAdj.AdjustmentsCompose` | jni/openssl/crypto/o_time.c:238-296 | after a successful adjustment a second one does what one with the summed offsets would have done |
| `GmtimeAdj.SecondsInjective` | jni/openssl/crypto/o_time.c:238-296 | a second has one normalised time |
| `GmtimeAdj.GmtimeAdjust` | jni/openssl/crypto/o_time.c:238-296 | the struct is set to the adjusted time, or untouched when that fails |
| `MemInfo.ReleaseKeeps` | jni/openssl/crypto/mem_dbg.c:204-214 | app_info_free gives up one reference and frees just what that leaves unused; no pointer dangles |
| `MemInfo.PushKeeps` | jni/openssl/crypto/mem_dbg.c:397-440 | a push moves the old top's reference from the table to the new node |
| `MemInfo.PopKeeps` | jni/openssl/crypto/mem_dbg.c:359-395 | a pop leaves every remaining count at its number of pointers |
| `MemInfo.TrackKeeps` | jni/openssl/crypto/mem_dbg.c:542-560 | a tracked address holds one reference, and one it held before is given back |
| `MemInfo.UntrackKeeps` | jni/openssl/crypto/mem_dbg.c:584-594 | freeing an address gives its reference back |
| `MemInfo.RetrackKeeps` | jni/openssl/crypto/mem_dbg.c:605-655 | an overwritten record keeps its reference for ever |
| `MemRuns.ApplySafe` | jni/openssl/crypto/mem_dbg.c:204-214 | after any operation a count is at least the number of pointers, so nothing live points to a freed node |
| `MemRuns.CountsExactIff` | jni/openssl/crypto/mem_dbg.c:605-655 | over any run counts are exact exactly when no reallocation overwrote a tracked address that has an info |
| `MemRuns.NoGarbageIff` | jni/openssl/crypto/mem_dbg.c:542-560 | over any run every unused node is freed exactly when no allocation was recorded at a tracked address whose record was its info's last user |
| `MemRuns.StrandingExample` | jni/openssl/crypto/mem_dbg.c:551-558 | a run of four operations that ends with a node whose count is zero |
| `MemRuns.LossExample` | jni/openssl/crypto/mem_dbg.c:640-646 | a run of four operations that ends with a count too high |
| `MemBooks.SharingNeverShows` | jni/openssl/crypto/mem_dbg.c:143-159 | over any run each thread has its own stack and each address a private copy of the stack it saw: sharing and freeing nodes never shows |
| `MemBooks.LiveIsReachable` | jni/openssl/crypto/mem_dbg.c:204-214 | with exact counts every live node is on a stack or in a record's trace |
| `MemBooks.ReachableIsLive` | jni/openssl/crypto/mem_dbg.c:204-214 | nothing reachable has been freed |
| `MemDebugger.MemDebug.AppInfoFree` | jni/openssl/crypto/mem_dbg.c:204-214 | the recursion ends and releases one reference |
| `MemDebugger.MemDebug.PopTop` | jni/openssl/crypto/mem_dbg.c:359-395 | pop_info, statement by statement |
| `MemDebugger.MemDebug.PushInfo` | jni/openssl/crypto/mem_dbg.c:397-440 | CRYPTO_push_info_, whose result is always zero |
| `MemDebugger.MemDebug.RemoveAllInfo` | jni/openssl/crypto/mem_dbg.c:463-477 | ends having popped the thread's whole stack and nothing else, and counts the entries |
| `MemDebugger.MemDebug.DbgMalloc` | jni/openssl/crypto/mem_dbg.c:481-567 | a tracked allocation |
| `MemDebugger.MemDebug.DbgFree` | jni/openssl/crypto/mem_dbg.c:569-602 | an untracked one |
| `MemDebugger.MemDebug.DbgRealloc` | jni/openssl/crypto/mem_dbg.c:605-655 | a moved one |
| `MemCheckLocks.StepKeepsInv` | jni/openssl/crypto/mem_dbg.c:216-302 | the lock and counter invariant through every single access and lock operation |
| `MemCheckLocks.DisabledMeansLocked` | jni/openssl/crypto/mem_dbg.c:194-202 | with MALLOC free: the count is positive iff checking is disabled, and then MALLOC2 is held by the thread on record, as deep as the count |
| `MemCheckLocks.Malloc2HeldIff` | jni/openssl/crypto/mem_dbg.c:198-202 | when MALLOC2 is held, against the comment that says exactly while the count is positive |
| `MemCheckLocks.NoHoldAndWait` | jni/openssl/crypto/mem_dbg.c:240-258 | no thread waits for MALLOC2 while it holds MALLOC |
| `MemCheckLocks.AnswerIff` | jni/openssl/crypto/mem_dbg.c:285-302 | CRYPTO_is_mem_check_on answers false exactly to the thread that disabled checking |
| `MemCheckLocks.NoDeadlock` | jni/openssl/crypto/mem_dbg.c:216-302 | every run can be continued until all threads are done and checking is on |
| `MemCheckCalls.CallEffect` | jni/openssl/crypto/mem_dbg.c:216-302 | in every run, with other threads in between: a call that switches off ends with one disable more, checking disabled in its name and MALLOC2 held; one that switches on with one less, and with the last one checking enabled and MALLOC2 given up; a query changes nothing and answers whether there is none |
| `FlvScan.GetLastKeyframe` | jni/rtmpdump/rtmpdump-jni.c:282-447 | the backward walk with its file positions, on every file below 4 GiB: it ends, and returns what LastKeyframe says |
| `FlvBackward.LastKeyframeIs` | jni/rtmpdump/rtmpdump-jni.c:282-447 | on any file, well-formed or not: the tags the walk reads are linked by their size trailers from the end of the file, it stops at the first target with enough counted tags behind it, and fails exactly where no tag can be read or the content is cut off; content, type, timestamp and file position |
| `FlvFlags.AudioOnlyIff` | jni/rtmpdump/rtmpdump-jni.c:300-303 | a file counts as audio only exactly when bit 2 of its flags is set and bit 0 is not |
| `FlvResume.WellFormedWalk` | jni/rtmpdump/rtmpdump-jni.c:317-393 | on every well-formed file the walk ends at the tag Pick names, or fails when there is none |
| `FlvResume.PickIsNthKeyframe` | jni/rtmpdump/rtmpdump-jni.c:373-393 | that tag is the keyframe with nSkipKeyFrames keyframes behind it |
| `FlvResume.PickIsLastAudio` | jni/rtmpdump/rtmpdump-jni.c:373-393 | in audio files it is the last audio tag before the last nSkipKeyFrames tags of any kind |
| `FlvResume.VideoResume` | jni/rtmpdump/rtmpdump-jni.c:282-447 | failure, timestamp, data, type, file position and tags read, for video files |
| `FlvResume.AudioResume` | jni/rtmpdump/rtmpdump-jni.c:282-447 | failure, frame, file position and tags read, for audio files |
| `FlvForward.OpenResumeFile` | jni/rtmpdump/rtmpdump-jni.c:142-281 | the forward walk over tag headers to the metadata tag |
| `FlvFlags.OpenAcceptsIff` | jni/rtmpdump/rtmpdump-jni.c:164-206 | which headers are accepted, in terms of the letters, the bits of the flags and where the first tag is to begin |
| `FlvForward.OpenOnLayout` | jni/rtmpdump/rtmpdump-jni.c:206-272 | it reads the tags up to the first script tag that is metadata or does not decode |
| `FlvForward.WalksAgree` | jni/rtmpdump/rtmpdump-jni.c:206-272 | on every well-formed file the forward walk reads a first part of the tag positions and the backward walk a last part of the same positions in reverse |
| `ClientDriver.DoneIsSafe` | jni/openssl/ssl/d1_clnt.c:192-732 | on every run completion is reported only after one ChangeCipherSpec, one Finished and the peer's Finished, and in the order `hit` says exactly unless the call found a resumed renegotiation finished but not reported |
| `ClientDriver.StepKeepsInv` | jni/openssl/ssl/d1_clnt.c:192-732 | what has been sent and received at each state of the driver |
| `ClientDriver.HitLostExample` | jni/openssl/ssl/d1_clnt.c:671-686 | a renegotiation that resumes a session, a flush that fails for good, and a completion report with hit cleared |
| `ClientDriver.Client.ConnectCall` | jni/openssl/ssl/d1_clnt.c:192-732 | one call of dtls1_connect, whatever its helpers return |
| `ClientTrace.DoneIsHandshake` | jni/openssl/ssl/d1_clnt.c:192-732 | on every run, when completion is reported, the messages read and sent since SSL_CB_HANDSHAKE_START are one of the handshakes of the protocol: hellos with cookies, then the resumed flight, or the full one with each optional message exactly when it is called for |
| `ClientReplay.CompletedIffHandshake` | jni/openssl/ssl/d1_clnt.c:192-732 | and each of those handshakes is what some run reads and sends that completes |
| `ServerDriver.DoneIsSafe` | jni/openssl/ssl/d1_srvr.c:202-803 | the same for the server, with the orders exchanged, and exactly unless the call found a resumed handshake finished but not reported |
| `ServerDriver.StepKeepsInv` | jni/openssl/ssl/d1_srvr.c:202-803 | what has been sent and received at each state of the server's driver |
| `ServerDriver.HelloRequestIsNotDone` | jni/openssl/ssl/d1_srvr.c:769-790 | a pass that only sends a HelloRequest never reports completion |
| `ServerDriver.HitLostExample` | jni/openssl/ssl/d1_srvr.c:811-818 | a run from the start of a connection that reports a resumed handshake complete with hit cleared |
| `ServerDriver.Server.AcceptCall` | jni/openssl/ssl/d1_srvr.c:202-803 | one call of dtls1_accept, whatever its helpers return |
| `ServerTrace.DoneIsHandshake` | jni/openssl/ssl/d1_srvr.c:202-803 | the same for the server, with rounds of HelloVerifyRequests and of clients that start over before the last ClientHello |
| `ServerReplay.CompletedIffHandshake` | jni/openssl/ssl/d1_srvr.c:202-803 | and each of its handshakes is what some run reads and sends that completes |

## Left out

- Cryptography and certificates: authentication is a predicate on epoch and record, the block function of a digest and the AMF decoder are arbitrary functions.
- Write errors and the MTU-exceeded retry in `dtls1_do_write`: a write is accepted in full or a flush ends the call.
- Failing memory allocation and the clean-up after it.
- Partial reads from the socket, alerts, application data, heartbeats, timers, SCTP, Kerberos, listen mode and DTLS1_BAD_VER.
- Fragments of one message number that disagree about its length (`ReceiveSpec.SameLength`), and, where traffic is said to be honest, empty fragments of a non-empty message.
- EndToEnd.DeliveredIsPrefix: claims safety only; delivery is claimed where `Coverage.DeliveredIffCovered` and `Blocking.CoveredIsDelivered` state it.
- RecordSpec.NoWireRecordTwice: speaks of records straight from the wire; for buffered ones see `RecordRepeats.NoRecordTwiceIff`.
- WriteNumbers.NumbersNeverRepeat: the 48-bit counters and the epoch are taken not to overflow, and retransmissions to be of the last two epochs; the second is what the drivers keep (`ClientFlights.NumbersNeverRepeat`, `ServerFlights.NumbersNeverRepeat`).
- SendOrder.KeysIncreaseIff: message numbers stay below 0x8000; from there on the doubled number wraps in its 16 bits and keys start again at 0.
- SendOrder.CcsBetweenNeighbours: the same bound, for the same reason.
- SendQueue.QueueIsSendOrderIff: the same bound, for the same reason.
- ClientFlights.InOrderUnlessWaiting: the same bound, which the field `short` says has been kept so far.
- ClientFlights.DisorderIff: the same bound, in the same way.
- ServerFlights.AlwaysInOrder: the same bound, in the same way.
- ClientFlights.NumbersNeverRepeat: a kept message sent again is one entry of the queue in any number of records; heartbeats, which stop the timer as well, are not modelled. Numbers are compared since the last SSL_clear, which restarts epoch and counter.
- HandshakeWriter.HandshakeWriter.RetransmitMessage: asks that no handshake write is half done (`init_off` is 0), as a disabled assertion in the source does. The source itself goes ahead: it copies the message to the start of init_buf but writes from the stale offset, so that octets before it are not sent and octets behind the message are.
- HandshakeWriter.HandshakeWriter.ResendUnderOwnState: the same, as a part of that.
- HandshakeWriter.HandshakeWriter.RetransmitBufferedMessages: the same, for a timeout while a handshake write is half done.
- MessageReader.MessageReader.ReassembleFragment: asks that a fragment agrees with its entry about the length of the message; the source does not compare them, and what a copy outside the entry does cannot be said.
- MessageReader.MessageReader.ProcessOutOfSeqMessage: the same.
- MessageReader.MessageReader.ReceiveFragment: the same.
- MessageReader.MessageReader.GetMessage: the same, for all traffic of a read.
- GmtimeAdj.AdjustIsExact: does not model overflow of `int` and `long`; day numbers and offsets are unbounded.
- HashCollector.HashCtx.Update: the block size is the 64 octets of the digests that use this collector with 32-bit words.
- RecordReader.RecordReader.BitmapUpdate: the bitmap is 32 or 64 bits wide, the two widths of `unsigned long`.
- MemDebugger.MemDebug.DbgRealloc: the table of tracked addresses exists from the start; the source would use a null table when nothing has been tracked yet.
- MemInfo.ReleaseKeeps: a node is named by the serial number of its allocation and its count stands beside it, so reuse of freed memory and updates through aliased pointers are not modelled as such.
- MemCheckLocks.NoDeadlock: checking has been started and is not stopped while threads run, and every thread pairs its calls; on values, because steps of several threads interleave.
- FlvScan.GetLastKeyframe: files of 4 GiB and more are left out, where the 32-bit sum of a size trailer and 4 could wrap to zero and the walk would not move; file offsets are 64 bits wide.
- FlvForward.OpenResumeFile: the duration property, a property of the decoded metadata, is not read.
- ClientDriver.DoneIsSafe: states ending in _A and _B are one, since the drivers treat them alike; how helpers build and parse their messages is not modelled.
- ClientTrace.DoneIsHandshake: an item is a message helper that came to its end; those for ServerKeyExchange, CertificateRequest and the session ticket also do when the peer has left the message out.
- ServerTrace.DoneIsHandshake: the same, for the client's Certificate and CertificateVerify.
- Resending.ResentAsFirstSent: compares whole sendings; for one that is resumed after a failed flush see `FragmentPlan.ResumedWriteCoversIff`.
- The rest of the repository: ciphers, X.509, the stream protocols, the RTMP client, and the JNI layer.
