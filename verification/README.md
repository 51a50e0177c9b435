# A verified model of VibeLight's transport, coding and session logic

The repository is a Moonlight client that runs in a television's browser. Five of its parts are hard to get right and are modelled
here, each in the form the source has: arrays and objects changed in place by loops and methods, next to the functions that say
what they compute and the lemmas about those functions.

**Reed-Solomon erasure code** (`Gf256`, `GfTables`, `Matrix`, `Elimination`, `InvertMat`, `Cauchy`, `Recovery`, `ShardCoding`, `ReedSolomon`,
`Decode`). The generated tables are a field of 256 elements. The in-place Gauss-Jordan elimination inverts exactly the nonsingular
matrices. Every mix of surviving rows and parity rows is nonsingular, so shards are restored whenever each stripe has enough parity.
Decoding reads no status from the inversion, and the block product leaves its target alone under a zero coefficient; both are harmless
because of this algebra.

**Adaptive range coder** (`RangeCoder`, `Ppm`, `PpmCounts`, `PpmExample`, `SymbolTree`, `SymbolTable`, `Walk`, `CodeStream`, `Compress`, `Decompress`). `Ppm` is the model both
sides learn, as maps from histories to counts; `PpmCounts` tells from the message alone, in numbers, what each context holds and codes. The symbol table of the source, with its relative links, running sums and shared
parents, is shown to stand for that model after every operation. The reader meets contexts in another order than the writer, so the
two tables agree only up to the numbering of symbols; the proof goes through the order-independence of learning.

**Reliable transport** (`Transport`, `Sequence`, `Fragments`, `Incoming`, `Outgoing`, `Link`, `LinkedList`, `Bandwidth`). `Transport` is a state machine with unbounded
sequence numbers: a sender, a network that loses, repeats and reorders, and a receiver. `Incoming` and `Outgoing` are the source's objects
with 16-bit numbers, and each of their operations is shown to be a step of that machine. `Link` puts the two together with a network
between them: under every schedule what is dispatched is the first of what was submitted. The limits of 16 bits
are found exactly: how far back a late copy may begin, when a late acknowledgement takes away a command it was not made for, how many
fragments a packet may have for its retransmissions to be told from new packets, and how many for it to arrive at all. The constants are those of
ENet: 16 windows of 4096 numbers, 8 of them free (enet/enet.h is not part of this model).

**H.264 parameter sets** (`BitStream`, `Nal`, `SpsSyntax`, `SpsCanonical`, `SpsReread`, `SpsReader`, `SpsWriter`, `SpsUnit`, `FixupSps`, `SpsLimits`, `SpsExample`). `SpsSyntax` gives
printing and parsing of sequence parameter sets as functions on bits (sections 7.3.2.1, E.1.1 and E.1.2 of ITU-T H.264), `SpsReader` and
`SpsWriter` the cursor code that computes them, `FixupSps` the rewriting that asks a decoder for no delay. Printing then parsing is the
identity with two exceptions, found exactly: a 4:4:4 set with a scaling matrix, of which the writer prints eight lists and the reader
wants twelve, and a scaling list that wraps, of which the writer prints steps the reader refuses.

**Session and timing** (`Session`, `SessionInstance`, `Timeline`, `PositionClock`). The session is a state machine over the steps of the main thread, the
connection, input and stop workers and the platform's callbacks. The presentation timeline and the sequence lock are modelled over real
numbers and atomic accesses.

`Options` holds the option type, `Numbers` bytes and powers of two. `Xxx.Valid`, `Represents`, `Stands` and `Stored` are the predicates that tie an object to what it stands for.

Where the code and its own comments differ the model follows the code: the servo's ceiling is 0.05 ms a frame (wasm/wasmplayer.cpp:148), not
the three hundredths its comment gives, and `mul` clears nothing for a zero coefficient, as it clears `c` bytes (moonlight-common-c/reedsolomon/rs.c:117).

## Model

| member | source | states |
|---|---|---|
| `Gf256.MulAssoc` | moonlight-common-c/reedsolomon/rs.c:144-152 | The tabulated multiplication is that of GF(2)[x] modulo x^8+x^4+x^3+x^2+1: it is associative (with the next rows: commutative, distributive over XOR, with inverses). |
| `Gf256.MulComm` | moonlight-common-c/reedsolomon/rs.c:144-152 | Multiplication is commutative. |
| `Gf256.MulLinearRight` | moonlight-common-c/reedsolomon/rs.c:96-106 | Multiplication distributes over XOR, which is what adding scaled blocks rests on. |
| `Gf256.XtimeDoubles` | moonlight-common-c/reedsolomon/rs.c:157-205 | On numbers, multiplying by x doubles, and takes the polynomial 285 off where that leaves the byte. |
| `Gf256.MulInv` | moonlight-common-c/reedsolomon/rs.c:212-215 | Every nonzero element times its inverse is one, on both sides. |
| `Gf256.OrderOfX` | moonlight-common-c/reedsolomon/rs.c:169-205 | x is primitive: no smaller power than the 255th is one, so the exponent table runs through all nonzero elements. |
| `Gf256.EveryNonzeroIsPower` | moonlight-common-c/reedsolomon/rs.c:169-205 | Every nonzero element is one of the 255 tabulated powers. |
| `Gf256.LogExp` | moonlight-common-c/reedsolomon/rs.c:169-205 | The logarithm of a tabulated power is its exponent: the tables are inverse to each other. |
| `GfTables.Modnn` | moonlight-common-c/reedsolomon/rs.c:88-94 | Folding without dividing gives the remainder modulo 255 for every input. |
| `GfTables.FieldTables.GenerateGf` | moonlight-common-c/reedsolomon/rs.c:157-216 | The loops leave powers, logarithms and inverses in the tables, for all elements. |
| `GfTables.FieldTables.InitMulTable` | moonlight-common-c/reedsolomon/rs.c:144-152 | Every entry of the product table, zero rows and columns included, is the field product. |
| `GfTables.FieldTables.Init` | moonlight-common-c/reedsolomon/rs.c:380-383 | Initialisation makes all four tables ready. |
| `Matrix.PivotRepresents` | moonlight-common-c/reedsolomon/rs.c:295-327 | One pivot step turns a matrix that stands for the input under a set of pivots into one that stands for it under one pivot more. |
| `Matrix.SwapRepresents` | moonlight-common-c/reedsolomon/rs.c:282-292 | Bringing the pivot to the diagonal keeps the matrix standing for the input, with the order of the unknowns exchanged. |
| `Elimination.StuckIsSingular` | moonlight-common-c/reedsolomon/rs.c:260-279 | When no unused row and column hold a nonzero entry, the input matrix is singular. |
| `Elimination.FinishedIsInverse` | moonlight-common-c/reedsolomon/rs.c:224-344 | With all pivots done and the order restored, what is left is the inverse of the input. |
| `Elimination.InverseProducts` | moonlight-common-c/reedsolomon/rs.c:224-344 | Being inverse means both matrix products are the identity. |
| `Elimination.SwapColumnsRepresents` | moonlight-common-c/reedsolomon/rs.c:329-339 | Exchanging two columns takes back one exchange of rows. |
| `InvertMat.FindPivot` | moonlight-common-c/reedsolomon/rs.c:254-279 | The search finds an unused nonzero pivot, diagonal first, or there is none anywhere. |
| `InvertMat.PivotInPlace` | moonlight-common-c/reedsolomon/rs.c:295-327 | The in-place row operations, shortcut for a unit row included, are one pivot step. |
| `InvertMat.EliminateColumn` | moonlight-common-c/reedsolomon/rs.c:248-328 | One round marks a new pivot, keeps what the matrix stands for and records the exchange, or shows the input singular. |
| `InvertMat.InvertInPlace` | moonlight-common-c/reedsolomon/rs.c:224-344 | Returns 0 exactly for nonsingular matrices, and then leaves the two-sided inverse in place of the input. |
| `Cauchy.CauchyKernel` | moonlight-common-c/reedsolomon/rs.c:435-438 | A square Cauchy matrix over distinct points annihilates only the zero vector. |
| `Cauchy.ParityEntry` | moonlight-common-c/reedsolomon/rs.c:435-438 | The entry of parity row j for data shard i, times (parity shards + i) exclusive-or j, is one. |
| `Cauchy.ParityEntryNonzero` | moonlight-common-c/reedsolomon/rs.c:435-438 | Every entry of the parity block is nonzero for at most 255 shards. |
| `Recovery.DecodeNonsingular` | moonlight-common-c/reedsolomon/rs.c:524-552 | Any mix of surviving identity rows and as many distinct parity rows as erasures is nonsingular, which is why the unread status of the inversion does no harm. |
| `Recovery.FirstCoefficientNonzero` | moonlight-common-c/reedsolomon/rs.c:552-560 | Every coefficient decoding uses for the first block is nonzero, so the output is overwritten before anything is added to it. |
| `Recovery.RecoversByte` | moonlight-common-c/reedsolomon/rs.c:552-560 | A row of the inverse applied to what is in hand gives the data byte of its shard back. |
| `ShardCoding.MulBlock` | moonlight-common-c/reedsolomon/rs.c:108-118 | Multiplies a block, except that a zero coefficient leaves the target as it was. |
| `ShardCoding.AddMulBlock` | moonlight-common-c/reedsolomon/rs.c:96-106 | Adds a multiple of a block. |
| `ShardCoding.CodeSomeShards` | moonlight-common-c/reedsolomon/rs.c:364-378 | Every output byte is the row applied to the inputs, as far as the first coefficient lets the old contents vanish. |
| `ShardCoding.CodedIsDot` | moonlight-common-c/reedsolomon/rs.c:364-378 | That is the plain product exactly when the first coefficient is nonzero or the old byte was zero. |
| `ReedSolomon.SubMatrix` | moonlight-common-c/reedsolomon/rs.c:349-361 | Copies the rectangle asked for. |
| `ReedSolomon.Multiply` | moonlight-common-c/reedsolomon/rs.c:121-138 | Computes the matrix product entry by entry. |
| `ReedSolomon.New` | moonlight-common-c/reedsolomon/rs.c:385-472 | Refuses exactly the counts that are not positive or more than 255 together; otherwise the matrix is the identity over a block whose entry times (parity shards + i) exclusive-or j is one. |
| `ReedSolomon.Encode` | moonlight-common-c/reedsolomon/rs.c:570-584 | Afterwards every stripe is a codeword over its unchanged data. |
| `Decode.SortErased` | moonlight-common-c/reedsolomon/rs.c:508-522 | The early-ending sort permutes its input and leaves sorted input alone. |
| `Decode.GatherRows` | moonlight-common-c/reedsolomon/rs.c:554-558 | Moving the needed rows to the front in place reads every row before it is overwritten, because the erased numbers increase. |
| `Decode.FillDecodeMatrix` | moonlight-common-c/reedsolomon/rs.c:524-550 | Builds the matrix of surviving and parity rows with the blocks in the same order. |
| `Decode.DecodeStripe` | moonlight-common-c/reedsolomon/rs.c:496-561 | Restores every erased data block of a stripe. |
| `Decode.FindParity` | moonlight-common-c/reedsolomon/rs.c:617-625 | Collects as many surviving parity shards as there are erasures, or finds too few. |
| `Decode.RepairedAll` | moonlight-common-c/reedsolomon/rs.c:594-639 | If every stripe has enough parity, what is repaired is the original. |
| `Decode.Reconstruct` | moonlight-common-c/reedsolomon/rs.c:594-639 | Any erasures in any stripes: returns 0 exactly when each stripe has at least as many surviving parity shards as erased data shards, repairs exactly the stripes that do, and touches no parity shard. |
| `RangeCoder.NarrowInside` | moonlight-common-c/enet/compress.c:121-126 | Narrowing divides by a positive unit, stays inside the interval and never overflows 32 bits. |
| `RangeCoder.TurnSound` | moonlight-common-c/enet/compress.c:126-136 | One turn of the carryless renormalisation keeps the registers sound and lets the loop end. |
| `RangeCoder.TurnMeans` | moonlight-common-c/enet/compress.c:126-136 | A turn in numbers: the loop ends exactly when low and low + range differ in the high byte and the range is at least 65536; otherwise the high byte goes out, after a shorter range was cut at the next multiple of 65536. |
| `RangeCoder.EmitWithin` | moonlight-common-c/enet/compress.c:121-146 | Everything written later names a point of the current interval. |
| `RangeCoder.ReadSlot` | moonlight-common-c/enet/compress.c:352-371 | A reader at the same place finds a slot inside the event that was written. |
| `RangeCoder.FlushWindow` | moonlight-common-c/enet/compress.c:139-146 | After flushing, a reader that runs into zero padding sees the low register exactly. |
| `RangeCoder.ReadEnd` | moonlight-common-c/enet/compress.c:575-580 | Past the end every context is read in its escape slot. |
| `RangeCoder.RenormalizeFlush` | moonlight-common-c/enet/compress.c:354-371 | Reading such an escape leaves a finished message finished. |
| `RangeCoder.XorHigh` | moonlight-common-c/enet/compress.c:127-128 | The test on the exclusive or compares the high bytes. |
| `Ppm.BumpedFits` | moonlight-common-c/enet/compress.c:306-314 | Before a rescale counts fit 8 bits and totals 16. |
| `Ppm.TouchedConsistent` | moonlight-common-c/enet/compress.c:90-112 | After accounting and rescaling, totals are the escapes plus all counts and stay at most 0xFF00 when used. |
| `Ppm.SlotsOrdered` | moonlight-common-c/enet/compress.c:159-199 | Slots of different values do not meet. |
| `Ppm.LearnCommutes` | moonlight-common-c/enet/compress.c:286-329 | Updating a longer context first or last makes no difference to the model or to what is coded in shorter ones; the reader relies on it. |
| `Ppm.LearnCoherent` | moonlight-common-c/enet/compress.c:286-329 | Learning a byte keeps the set of contexts closed under dropping the oldest byte. |
| `Ppm.AllEventsProper` | moonlight-common-c/enet/compress.c:121-137 | Every event of every message has a nonempty slot inside its total. |
| `PpmCounts.SubTouched` | moonlight-common-c/enet/compress.c:299-315 | Outside the root a coded value counts two more and a new one adds five escapes; all counts are halved, rounding up, exactly when the value's count was over 251 or the total goes over 65280. |
| `PpmCounts.RootTouched` | moonlight-common-c/enet/compress.c:318-329 | In the root it counts three more, and all is halved exactly when its count was 250 or more or the total goes over 65280. |
| `PpmCounts.LearnReaches` | moonlight-common-c/enet/compress.c:286-329 | A byte changes the contexts from the longest on up to the first that knows it and no others, and is given a context of its own behind each. |
| `PpmCounts.AfterMore` | moonlight-common-c/enet/compress.c:148-157 | The table starts over exactly when it holds 4094 contexts or more; otherwise the next context is the last one and the byte, at most two bytes long. |
| `PpmCounts.SinceEnd` | moonlight-common-c/enet/compress.c:148-157 | The bytes coded since then are the last ones of the message. |
| `PpmCounts.Predicts` | moonlight-common-c/enet/compress.c:331-335 | So the next byte is expected after the last two since the table started over, or as many as there are. |
| `PpmCounts.ShortNeverStartsOver` | moonlight-common-c/enet/compress.c:148-157 | A byte adds at most three contexts, so that no message of up to 1364 bytes starts the table over. |
| `PpmCounts.ContextHolds` | moonlight-common-c/enet/compress.c:284-336 | After any message, in a context that never halved: a value coded n times counts 2n, or 3n in the root; escapes are five for each distinct value, or 1 in the root; the total is their sum, and 256 more in the root. |
| `PpmCounts.SlotsHold` | moonlight-common-c/enet/compress.c:299-327 | And the slots it codes with, counted from the message: where a value's slot begins, how many parts it has of how many, and that the escape is coded exactly when something was learnt before. |
| `PpmCounts.EventsAt` | moonlight-common-c/enet/compress.c:264-338 | A message's events are those of its bytes, each coded with what the bytes before it left. |
| `SymbolTree.WalkHit` | moonlight-common-c/enet/compress.c:170-197 | A walk that ends at the value's node keeps every `under` equal to own count plus left subtree. |
| `SymbolTree.WalkGap` | moonlight-common-c/enet/compress.c:159-190 | A walk that ends at a gap and links a new node there does so too. |
| `SymbolTable.Table.Rescale` | moonlight-common-c/enet/compress.c:90-105 | Halves every count of a subtree, redoes the `under` sums and returns the new total. |
| `SymbolTable.Table.RescaleContext` | moonlight-common-c/enet/compress.c:107-112 | Halves counts and escapes and sums the context again. |
| `SymbolTable.Table.Account` | moonlight-common-c/enet/compress.c:306-314 | Escapes, totals and the timely rescale, as the model says. |
| `Walk.EncodeIn` | moonlight-common-c/enet/compress.c:159-199 | The walk finds or makes the value's node, counts it in, and yields its exact prefix sum and count. |
| `Walk.DecodeIn` | moonlight-common-c/enet/compress.c:373-445 | The search by slot number finds the one value whose slots hold it, with the same bounds and the same effect on the tree. |
| `Walk.CompareSlots` | moonlight-common-c/enet/compress.c:386-410 | Comparing the slot number with a node's slots is comparing the values. |
| `CodeStream.EncodeRange` | moonlight-common-c/enet/compress.c:114-137 | Writes the bytes of one event, or fails exactly when they do not fit. |
| `CodeStream.FlushRange` | moonlight-common-c/enet/compress.c:139-146 | Writes the low register's bytes up to the last nonzero one. |
| `CodeStream.Seed` | moonlight-common-c/enet/compress.c:344-350 | Fills the reader's window, with zeros past the end. |
| `CodeStream.DecodeRange` | moonlight-common-c/enet/compress.c:354-371 | Moves the window past one event, in step with the writer. |
| `Compress.PlaceContext` | moonlight-common-c/enet/compress.c:286-296 | Places the byte in one context and hands its index to the context that waits for it. |
| `Compress.EncodeContext` | moonlight-common-c/enet/compress.c:286-316 | Codes one context's event and accounts for it. |
| `Compress.EncodeByte` | moonlight-common-c/enet/compress.c:284-330 | Codes a byte from the longest context down and leaves the table equal to the learnt model. |
| `Compress.NextInput` | moonlight-common-c/enet/compress.c:331-336 | Moves to the next context, and starts over when the table is nearly full. |
| `Compress.Compress` | moonlight-common-c/enet/compress.c:246-342 | Writes exactly the coded message of the concatenated buffers, or returns 0 exactly when it does not fit or there is nothing to do; the rows on `PpmCounts` and `PpmExample` say in numbers what is coded. |
| `PpmExample.CompressedAAA` | moonlight-common-c/enet/compress.c:246-342 | The byte 97 three times is compressed to 62 01 4c a3. |
| `PpmExample.CompressedABAC` | moonlight-common-c/enet/compress.c:246-342 | The bytes 97 98 97 99, with an escape out of a context that knows another byte, to 62 02 ca 42 cb b4. |
| `Decompress.PatchStep` | moonlight-common-c/enet/compress.c:598-615 | Teaching the longer contexts afterwards, in the reader's order, is learning. |
| `Decompress.LearnPatchedMiss` | moonlight-common-c/enet/compress.c:529-615 | Learning is learning where the byte was found, then patching the contexts that missed. |
| `Decompress.DecodeContext` | moonlight-common-c/enet/compress.c:536-567 | Reads an escape or the byte in one context, as the slot number says. |
| `Decompress.Search` | moonlight-common-c/enet/compress.c:529-596 | Finds the longest context that knows the next byte, or the end of the message. |
| `Decompress.Patch` | moonlight-common-c/enet/compress.c:598-615 | Leaves the table equal to the learnt model although its indices differ from the writer's. |
| `Decompress.DecodeByte` | moonlight-common-c/enet/compress.c:520-617 | One byte is read back, or the end is found exactly at the end. |
| `Decompress.SomethingWritten` | moonlight-common-c/enet/compress.c:246-342 | A message that is not empty has a nonempty coding. |
| `Decompress.Decompress` | moonlight-common-c/enet/compress.c:498-627 | Given a compressed message and room for it, produces the original bytes and stops by the root's escape out of the zero padding. |
| `Decompress.RoundTrip` | moonlight-common-c/enet/compress.c:246-627 | Compressing nonempty buffers and decompressing what was written gives their concatenation. |
| `Transport.StepSafe` | moonlight-common-c/enet/protocol.c:1448-1503 | Every step of sender, lossy network and receiver keeps the transport's invariant. |
| `Transport.RunSafe` | moonlight-common-c/enet/protocol.c:1448-1503 | So every state of every run has it. |
| `Transport.LastWindowShuts` | moonlight-common-c/enet/protocol.c:1452-1459 | The rule about a full window: the last window the sender may reach is outstanding whole once it is full, as its acknowledgements are held back, and that shuts the gate. |
| `Transport.AcceptableMeans` | moonlight-common-c/enet/peer.c:864-872 | In numbers: the receiver takes new commands up to the end of the sixth window of 4096 after its own. |
| `Transport.SuppressedMeans` | moonlight-common-c/enet/peer.c:614-621 | It sends no acknowledgement seven or eight windows ahead of it, nor eight or nine behind. |
| `Transport.GateOpens` | moonlight-common-c/enet/protocol.c:1448-1463 | The sender enters a window exactly when nothing more than six windows back is outstanding and not all 4096 numbers of the last window are, as long as nothing sixteen windows back is. |
| `Transport.Lag` | moonlight-common-c/enet/protocol.c:1448-1463 | So the sender stays within seven windows of the receiver, however many fragments a packet has. |
| `Transport.AcknowledgedIsTaken` | moonlight-common-c/enet/peer.c:604-634 | In every run, whatever was acknowledged has been queued or delivered. |
| `Transport.Reacknowledged` | moonlight-common-c/enet/peer.c:604-634 | A retransmission of a delivered command is never taken again and always acknowledged again, for packets of at most 12289 fragments. |
| `Transport.LiveCopyTooLate` | moonlight-common-c/enet/peer.c:864-872 | One fragment more is too many: a run in which an ordinary retransmission of a delivered packet of 12290 fragments begins ten windows behind the receiver. |
| `Transport.TooFarIsSuppressed` | moonlight-common-c/enet/peer.c:614-621 | A command refused for lying too far ahead is one whose acknowledgement is suppressed. |
| `Transport.DeliveredGrows` | moonlight-common-c/enet/peer.c:807-844 | Packets are handed on in send order, each once: a later state extends an earlier one. |
| `Transport.DeliveredExactlyWhen` | moonlight-common-c/enet/protocol.c:1448-1463 | Some run delivers all of the packets exactly when each ends less than eight windows after the window of the number it follows; so a packet of 32768 fragments or more never arrives, although the sender accepts 2^20. |
| `Transport.LateAcknowledgement` | moonlight-common-c/enet/protocol.c:221-290 | An acknowledgement, however late, does no harm exactly when every command its number names by then has been acknowledged itself. |
| `Transport.LateIsLost` | moonlight-common-c/enet/protocol.c:221-246 | A run in which a late acknowledgement of number 1 takes away number 65537, which was never received and is never sent again. |
| `Sequence.WindowTest` | moonlight-common-c/enet/peer.c:864-872 | The 16-bit window test is the true distance in windows, within one turn of the numbers. |
| `Sequence.OrderTest` | moonlight-common-c/enet/peer.c:878-902 | The comparisons across the wraparound order commands by their true numbers. |
| `Fragments.FragmentOf` | moonlight-common-c/enet/peer.c:119-197 | The fragments tile the packet: every byte lies in one of them. |
| `Fragments.Split` | moonlight-common-c/enet/peer.c:119-197 | Splits a packet, refusing exactly those of more than 1024 * 1024 fragments. |
| `Fragments.FragmentsAccepted` | moonlight-common-c/enet/protocol.c:573-584 | Every fragment the sender makes passes the receiver's field checks. |
| `Fragments.FieldsMean` | moonlight-common-c/enet/protocol.c:573-584 | The receiver's checks on a fragment come to this: it lies inside a packet of allowed size, cut into no more parts than it has bytes and at most 1024 * 1024. |
| `Fragments.HoldingMore` | moonlight-common-c/enet/protocol.c:624-637 | Copying a fragment in completes exactly its part of the packet. |
| `Fragments.Reassembled` | moonlight-common-c/enet/protocol.c:624-642 | With all bits set the buffer is the packet. |
| `Incoming.Channel.Dispatch` | moonlight-common-c/enet/peer.c:807-844 | Moves the whole packets at the head, in order, and exactly those that are next; the number register follows. |
| `Incoming.Channel.Find` | moonlight-common-c/enet/peer.c:878-902 | Searching from the back finds the command or the place that keeps the queue sorted. |
| `Incoming.Channel.QueueCommand` | moonlight-common-c/enet/peer.c:860-905 | For any 16-bit number: a command is dropped exactly when the window test fails, the number is the last delivered one or is queued already; otherwise it is refused when too much data waits, or put in its place. |
| `Incoming.Channel.HandleReliable` | moonlight-common-c/enet/protocol.c:447-465 | A plain command is taken, discarded or refused for waiting data, as the abstract receiver says. |
| `Incoming.Channel.HandleFragment` | moonlight-common-c/enet/protocol.c:537-642 | A fragment likewise; `fragmentsRemaining` stays the number of clear bits. |
| `Incoming.Channel.QueueAcknowledgement` | moonlight-common-c/enet/peer.c:604-634 | Acknowledges unless the number lies in the two suppressed windows. |
| `Incoming.Channel.ArriveReliable` | moonlight-common-c/enet/protocol.c:1150-1216 | Handling and acknowledging a plain command is the receiver's abstract step. |
| `Incoming.Channel.ArriveFragment` | moonlight-common-c/enet/protocol.c:1165-1216 | So it is for a fragment. |
| `Incoming.ArrivalTest` | moonlight-common-c/enet/peer.c:864-875 | For every copy at most nine windows behind, the source's tests accept exactly what is ahead and fits. |
| `Incoming.OldIsTakenForNew` | moonlight-common-c/enet/peer.c:864-902 | The number of a packet from behind is taken for a new one exactly when the packet begins ten windows back or more and no queued command has that number. |
| `Incoming.OwnNumberIsNotEnough` | moonlight-common-c/enet/protocol.c:562-571 | After a run that delivers packets up to number 40960, a late fragment nine windows back, whose packet begins one window earlier, is queued as a new packet. |
| `Incoming.SubmittedToo` | moonlight-common-c/enet/peer.c:807-844 | A receiver that stands for a state also stands for it with one more packet submitted. |
| `Incoming.SenderLeavesChannel` | moonlight-common-c/enet/peer.c:807-844 | What the sender sends and what is acknowledged changes nothing the receiver stands for. |
| `Outgoing.GateMaskSelects` | moonlight-common-c/enet/protocol.c:1455-1457 | The two shifted masks select the ten windows from the command's own on, modulo 16. |
| `Outgoing.MaskDecides` | moonlight-common-c/enet/protocol.c:1455-1462 | The masked word of flags is not zero exactly when one of the ten windows is in use. |
| `Outgoing.GateDecides` | moonlight-common-c/enet/protocol.c:1448-1463 | The flags and counters block a command exactly when a watched window holds an outstanding one or the last window is full. |
| `Outgoing.Sender.Submit` | moonlight-common-c/enet/peer.c:637-700 | A packet's commands take the next numbers. |
| `Outgoing.Sender.SendFront` | moonlight-common-c/enet/protocol.c:1444-1530 | Sends the first waiting command, or is blocked exactly by the gate; a first sending counts in its window. |
| `Outgoing.Sender.SendPass` | moonlight-common-c/enet/protocol.c:1412-1590 | A pass is a run of abstract sends. |
| `Outgoing.Sender.CheckTimeouts` | moonlight-common-c/enet/protocol.c:1348-1409 | Expired commands go, in order, in front of the waiting ones; nothing is lost. |
| `Outgoing.PickedAt` | moonlight-common-c/enet/protocol.c:1348-1409 | Of the commands looked at exactly the expired ones are taken and the others kept, each behind those of its kind that were before it. |
| `Outgoing.Sender.FindSent` | moonlight-common-c/enet/protocol.c:196-246 | Finds an acknowledged command among the kept or the retried ones. |
| `Outgoing.Sender.HandleAcknowledge` | moonlight-common-c/enet/protocol.c:221-290 | For any number at any time: the one outstanding command the number names, if there is one, leaves its list and its count, and no other does. |
| `Outgoing.CountedRemove` | moonlight-common-c/enet/protocol.c:251-261 | `reliableWindows` and its flags keep counting exactly the outstanding commands of each window. |
| `Outgoing.OnlyThisOne` | moonlight-common-c/enet/protocol.c:221-246 | Two outstanding commands never share a wire number. |
| `Outgoing.NamesNoOther` | moonlight-common-c/enet/protocol.c:221-246 | A number given out less than one turn of the counter ago names no other outstanding command. |
| `Outgoing.ReceiverLeavesSender` | moonlight-common-c/enet/protocol.c:221-290 | What the receiver takes, delivers and acknowledges changes nothing the sender stands for. |
| `Link.Link.Submit` | moonlight-common-c/enet/peer.c:107-222 | Submitting a packet, cut into fragments if it is long, is a step of both ends. |
| `Link.Link.Send` | moonlight-common-c/enet/protocol.c:1444-1530 | Sending the front command is an abstract send exactly when it goes out for the first time and the gate is open; otherwise no step. |
| `Link.Link.Arrive` | moonlight-common-c/enet/protocol.c:1150-1216 | Any copy of any command sent so far, plain or fragment, is received and answered as the abstract receiver does, or refused for waiting data. |
| `Link.Link.HearBack` | moonlight-common-c/enet/protocol.c:851-945 | Any acknowledgement made so far may come at any time; the abstract step is taken exactly when its number names no other command. |
| `Link.Link.Drive` | moonlight-common-c/enet/protocol.c:1801-1925 | For every schedule of submissions, sendings, timeouts, copies and acknowledgements: sender and receiver with 16-bit numbers together take a run of the abstract transport, the dispatched packets are the first submitted ones, each once, in order and byte for byte, and nothing is acknowledged that was not queued or dispatched. |
| `LinkedList.Insert` | moonlight-common-c/enet/list.c:20-32 | Four link updates insert a node in front of a position. |
| `LinkedList.Remove` | moonlight-common-c/enet/list.c:34-41 | Two link updates take a node out. |
| `LinkedList.Move` | moonlight-common-c/enet/list.c:43-59 | Six link updates move a stretch of one list into another, leaving both well linked and in order. |
| `LinkedList.Size` | moonlight-common-c/enet/list.c:61-73 | Counts the nodes without the sentinel. |
| `Bandwidth.Host.ChangeState` | moonlight-common-c/enet/protocol.c:35-44 | Any change of state keeps both peer counters exact. |
| `Bandwidth.Host.OnConnect` | moonlight-common-c/enet/peer.c:352-362 | Counts a peer that was not counted. |
| `Bandwidth.Host.OnDisconnect` | moonlight-common-c/enet/peer.c:364-374 | Stops counting a peer; no counter goes below zero. |
| `Bandwidth.Host.Reset` | moonlight-common-c/enet/peer.c:381-436 | A reset peer is disconnected and not counted. |
| `Bandwidth.Host.Disconnect` | moonlight-common-c/enet/peer.c:537-572 | A counted peer says goodbye, one in a handshake is reset and all others stay, with the counters exact. |
| `Bandwidth.Host.DisconnectAfter` | moonlight-common-c/enet/peer.c:591-602 | A connected peer with commands to send stays counted and waits; any other is dismissed at once. |
| `Bandwidth.Host.NotifyDisconnect` | moonlight-common-c/enet/protocol.c:136-158 | The peer waits as a zombie to be reported exactly when it was known and no event can be told now, and is reset otherwise; it is not counted, and limits are worked out again if it could have counted. |
| `Bandwidth.Host.HandleDisconnect` | moonlight-common-c/enet/protocol.c:821-848 | After a goodbye the peer has to acknowledge exactly when it was counted and asked to, or had to already; it is reset exactly from the two handshake states it answered, and otherwise a zombie or gone as before. |
| `Bandwidth.Host.HandleBandwidthLimit` | moonlight-common-c/enet/protocol.c:774-787 | The count of limited peers follows the new bandwidth. |
| `Bandwidth.Host.TakeFree` | moonlight-common-c/enet/host.c:195-211 | Takes the first disconnected peer, if there is one. |
| `Bandwidth.Host.LearnBandwidths` | moonlight-common-c/enet/protocol.c:345-346 | A peer that is not connected yet learns its bandwidths without touching a counter. |
| `Bandwidth.Leaving` | moonlight-common-c/enet/peer.c:364-374 | However a peer leaves, it is not counted afterwards. |
| `Bandwidth.GoodbyeStates` | moonlight-common-c/enet/protocol.c:821-848 | The same of the function behind it, for every state, with nothing but the state changed unless the peer is reset. |
| `Bandwidth.DismissalStates` | moonlight-common-c/enet/peer.c:537-572 | And for a request to disconnect. |
| `Bandwidth.LossStates` | moonlight-common-c/enet/protocol.c:136-158 | And for a peer found dead. |
| `Bandwidth.Host.Recalculate` | moonlight-common-c/enet/host.c:422-476 | Water-filling: the loop ends, limits never go down, exactly those who ask for less than the limit are settled, the rest share the remainder equally, and all shares together stay within the host's bandwidth. |
| `Bandwidth.GrantedTotal` | moonlight-common-c/enet/host.c:458-475 | The shares sent add up to the settled bandwidths plus the limit for each open peer. |
| `Bandwidth.SumUpdate` | moonlight-common-c/enet/peer.c:352-374 | Changing one peer changes a count by that peer's part. |
| `BitStream.Cursor.ReadU1` | h264bitstream/bs.h:127-142 | Reads the bit at the position, or fails at the end. |
| `BitStream.Cursor.ReadBits` | h264bitstream/bs.h:162-172 | Reads up to 32 bits, or fails exactly when they are not all there. |
| `BitStream.Cursor.ReadU8` | h264bitstream/bs.h:185-196 | The aligned byte path reads what the bit path reads. |
| `BitStream.Cursor.ReadUnsigned` | h264bitstream/bs.h:198-210 | Reads an Exp-Golomb code, refusing long prefixes and values over 2^31-1. |
| `BitStream.Cursor.ReadSigned` | h264bitstream/bs.h:212-224 | Reads a signed code. |
| `BitStream.Cursor.WriteU1` | h264bitstream/bs.h:227-242 | Sets one bit and no other, or fails at the end. |
| `BitStream.Cursor.WriteBits` | h264bitstream/bs.h:244-252 | Writes a fixed-length code, leaving all other bits untouched. |
| `BitStream.Cursor.WriteU8` | h264bitstream/bs.h:256-267 | The aligned byte path writes what the bit path writes. |
| `BitStream.Cursor.WriteUnsigned` | h264bitstream/bs.h:269-278 | Writes the code of every value up to 2^31-1 and refuses the others. |
| `BitStream.Cursor.WriteSigned` | h264bitstream/bs.h:280-292 | Writes the code of every value in [-(2^30-1), 2^30] and refuses the others. |
| `BitStream.Cursor.EofAt` | h264bitstream/bs.h:114-119 | The cursor is at the end exactly when no bit is left. |
| `BitStream.ReadUBack` | h264bitstream/bs.h:162-172 | What u(n) wrote is read back, at any bit offset. |
| `BitStream.ReadUeBack` | h264bitstream/bs.h:198-210 | What ue wrote is read back. |
| `BitStream.ReadSeBack` | h264bitstream/bs.h:212-224 | What se wrote is read back. |
| `BitStream.ReadUeFits` | h264bitstream/bs.h:198-224 | Whatever ue or se read can be written again. |
| `Nal.UnescapeEscape` | h264bitstream/h264_nal.c:175-294 | Taking emulation prevention out again gives the payload back, for every payload. |
| `Nal.EscapeSafe` | h264bitstream/h264_nal.c:175-226 | The escaped bytes hold no 00 00 followed by a byte below 3. |
| `Nal.EscapeChanges` | h264bitstream/h264_nal.c:188-226 | A payload is sent as it is exactly when it nowhere holds two zeros and a byte up to three; otherwise it grows. |
| `Nal.EscapeTriple` | h264bitstream/h264_nal.c:198-210 | Such a triple is sent with a three in front of its last byte. |
| `Nal.OutputSize` | h264bitstream/h264_nal.c:175-180 | The output, its leading zero byte included, is at most half as long again, rounded up. |
| `Nal.RbspToNal` | h264bitstream/h264_nal.c:188-226 | Writes a zero byte and the escaped payload, or fails exactly when they do not fit. |
| `Nal.NalToRbsp` | h264bitstream/h264_nal.c:241-294 | Writes the unescaped bytes, or fails exactly for sequences that cannot occur and for too little room. |
| `SpsSyntax.HrdBack` | h264bitstream/h264_stream.c:685-701 | Printed HRD parameters parse back. |
| `SpsSyntax.VuiBack` | h264bitstream/h264_stream.c:612-681 | Printed VUI parameters parse back. |
| `SpsSyntax.ListBack` | h264bitstream/h264_stream.c:473-505 | A printed scaling list parses back exactly when every step fits eight signed bits, and is refused otherwise. |
| `SpsSyntax.PicOrderBack` | h264bitstream/h264_stream.c:427-445 | The picture order fields parse back. |
| `SpsSyntax.HighBack` | h264bitstream/h264_stream.c:386-425 | The high profiles' part parses back, or is refused for a step too wide. |
| `SpsSyntax.SpsBack` | h264bitstream/h264_stream.c:364-470 | A printed parameter set with all its lists parses back exactly when no list takes too wide a step. |
| `SpsCanonical.UeStands` | h264bitstream/bs.h:198-210 | A value read by ue stands in the bits as ue would write it. |
| `SpsCanonical.VuiStands` | h264bitstream/h264_stream.c:612-681 | VUI parameters that parse stand in the bits exactly as they are printed. |
| `SpsCanonical.TailStands` | h264bitstream/h264_stream.c:426-470 | So does everything behind the high profiles' part. |
| `SpsCanonical.SpsParsed` | h264bitstream/h264_stream.c:364-470 | Whatever the reader returns is in the range the writer can print. |
| `SpsReread.ListsReach` | h264bitstream/h264_stream.c:407-424 | Lists the writer left out are read either as absent or out of at least five bits more. |
| `SpsReread.NotWhole` | h264bitstream/h264_stream.c:1740-1759 | A 4:4:4 set with a scaling matrix never parses back: the writer stops after eight lists, the reader wants twelve. |
| `SpsReread.Reread` | h264bitstream/h264_stream.c:364-470 | A printed parameter set with its trailing bits parses back exactly when it is no 4:4:4 set with a matrix and no step is too wide. |
| `SpsReader.ReadScalingList` | h264bitstream/h264_stream.c:473-505 | The loop reads what the list's syntax says. |
| `SpsReader.ReadVui` | h264bitstream/h264_stream.c:612-681 | Reads the VUI, or ends in an error exactly when it does not parse. |
| `SpsReader.ReadSps` | h264bitstream/h264_stream.c:364-470 | Reads the whole set, or ends in an error exactly when it does not parse, although reading goes on after an error. |
| `SpsWriter.WriteScalingList` | h264bitstream/h264_stream.c:1804-1835 | The loop writes what the list's syntax says. |
| `SpsWriter.WriteVui` | h264bitstream/h264_stream.c:1942-2011 | Adds the printed VUI to the bits. |
| `SpsWriter.WriteSps` | h264bitstream/h264_stream.c:1702-1801 | Adds the printed set to the bits and leaves all others alone, or ends in an error exactly when there is no room. |
| `SpsUnit.ReadUnit` | h264bitstream/h264_stream.c:160-308 | Reads an SPS unit, or fails exactly when it cannot be unescaped, parsed, or ended inside its bytes. |
| `SpsUnit.WriteTrailing` | h264bitstream/h264_stream.c:2295-2304 | The stop bit and the zeros up to the next byte. |
| `SpsUnit.WriteUnit` | h264bitstream/h264_stream.c:1506-1646 | Writes the escaped unit behind a zero byte, or fails exactly when it does not fit. |
| `SpsUnit.UnitReread` | h264bitstream/h264_stream.c:160-308 | Reading what was written gives the set back, exactly outside the two exceptions. |
| `SpsExample.FullBits` | h264bitstream/h264_stream.c:1702-1801 | A set with every part present and another value in every field, from the profile to the restriction, and the bits it is written as, field by field. |
| `SpsExample.VuiBits` | h264bitstream/h264_stream.c:1942-2011 | The same of its VUI parameters, with the explicit aspect ratio under code 255, timing, both HRDs and the restriction. |
| `SpsExample.OtherBits` | h264bitstream/h264_stream.c:1702-1801 | The other forms: no explicit ratio, the 4:4:4 flag, the other two types of picture order, whole frames. |
| `SpsExample.HighProfiles` | h264bitstream/h264_stream.c:386-391 | The twelve profiles that have the high profiles' part. |
| `SpsExample.OutOfRange` | h264bitstream/h264_stream.c:364-470 | More than 16 reference frames, a frame number of more than 16 bits, a chroma format over 3, an order type over 2 or more than 32 HRD entries are refused. |
| `SpsExample.AtTheLimits` | h264bitstream/h264_stream.c:364-470 | Sets at these limits are not. |
| `FixupSps.FixupSps` | wasm/h264_sps.hpp:8-81 | The whole pipeline: exactly which inputs are rewritten, and every byte of the output; `FixupSps.FixupAsks` says what the output asks a decoder for. |
| `FixupSps.FixedOnly` | wasm/h264_sps.hpp:45-59 | Only the restriction fields change; a VUI that was missing appears otherwise empty. |
| `FixupSps.FixupAsks` | wasm/h264_sps.hpp:45-59 | The parsed output asks for just this and is the input's set in all else: vectors over the boundaries, denominators 2 and 1, both vector ranges 16, reordering depth 0, and a buffer of at least one frame and of at least the reference frames, equal to one of the two. |
| `FixupSps.FixupWrites` | wasm/h264_sps.hpp:45-80 | Also where it cannot be parsed back, the output is start code and header and a unit of such a set. |
| `FixupSps.FixupRoom` | wasm/h264_sps.hpp:8-62 | A unit is taken on exactly when it has a start code, the header of a parameter set, 32 bytes to spare in the output and parses; and rewritten exactly when its raw bytes fit three quarters of the room and the escaped ones all of it. |
| `FixupSps.FixupKeeps` | wasm/h264_sps.hpp:61-80 | The output keeps start code and header, fits the capacity and looks like no other start code inside. |
| `FixupSps.FixupRereads` | wasm/h264_sps.hpp:8-81 | The output parses to the input's set with only the restriction changed, exactly when that set is no 4:4:4 set with a matrix and no step is too wide. |
| `FixupSps.FixupAgain` | wasm/h264_sps.hpp:8-81 | Fixing up once more changes nothing. |
| `SpsLimits.MatrixLost` | h264bitstream/h264_stream.c:1740-1759 | A concrete 4:4:4 unit that is rewritten and does not come back. |
| `SpsLimits.StepRefused` | h264bitstream/h264_stream.c:487-496 | A concrete unit whose list wraps from 8 to 208 is rewritten into one the reader refuses. |
| `Session.Safety` | wasm/main.cpp:87-208 | In every reachable state of every interleaving: media is released only when both workers are gone and nothing is pending with the platform; a stop worker serves the current session; Blocked is left only by a new session after a close that succeeded. |
| `Session.Forward` | wasm/main.cpp:87-208 | Within a session the phase only goes forward; Running never follows Stopping. |
| `Session.StepKeeps` | wasm/main.cpp:87-313 | Every step of every thread keeps the invariant behind that. |
| `Session.EntersUnless` | wasm/main.cpp:230 | A connection worker gives up on entering exactly when the session is not its own any more or was cancelled. |
| `Session.RunsUnless` | wasm/main.cpp:290-310 | A connected one makes the session run, with the input worker, exactly unless that is so. |
| `Session.BeginsExactlyWhen` | wasm/main.cpp:133-152 | A session begins exactly when the last teardown is complete and the phase is idle, or blocked with a close that succeeded after all. |
| `Session.SessionRuns` | wasm/main.cpp:210-313 | From every state with a worker launched for the current session that was not cancelled, its five steps lead to Running with the input worker polling and the source open. |
| `Session.FailureStops` | wasm/main.cpp:278-288 | A failed connection stops its session, or blocks it where no stop worker can be started. |
| `Session.CommonAsked` | wasm/main.cpp:87-115 | That the connection library has to be stopped is noted exactly when whoever stops a session asks for it or the connection terminated. |
| `Session.CommonTaken` | wasm/main.cpp:154-183 | It is forgotten exactly when the stop worker takes it over, the connection failed, or a new session begins. |
| `Session.ClosesExactlyWhen` | wasm/main.cpp:185-208 | From its wait for the opening on the stop worker ends in Idle with the source given up exactly when the source was opened or never asked for and needs no closing or was closed; otherwise in Blocked, with the source kept. |
| `Session.JoinsFinished` | wasm/main.cpp:138-142 | Where the main thread joins the stop worker, that worker has finished: the main thread never waits for one that may need it. |
| `Session.WorkersGoOn` | wasm/main.cpp:166-169 | During a teardown some worker can go on by itself exactly when the stop worker is not waiting for a failed connection whose call the main thread has not served. |
| `Session.TeardownEnds` | wasm/main.cpp:154-208 | From any state with a stop worker the teardown can be finished by the workers and a main thread that serves the call of a failed connection, at most once. |
| `Session.TeardownBounded` | wasm/main.cpp:154-208 | Whatever else happens in between, it takes no more than a known number of steps. |
| `SessionInstance.CloseTicket.Complete` | wasm/session_lifecycle.hpp:13-19 | Only the first completion counts. |
| `SessionInstance.Instance.BeginSession` | wasm/main.cpp:133-152 | Says yes exactly when the phase, the finished stop worker and the close ticket allow it, and what it then sets. |
| `SessionInstance.Instance.RequestStop` | wasm/main.cpp:87-115 | Starts the teardown once, or blocks when no worker can be started. |
| `SessionInstance.Instance.ReleaseMedia` | wasm/main.cpp:117-131 | Gives up the source and both tickets. |
| `SessionInstance.Instance.StartStream` | wasm/main.cpp:327-500 | Begins, makes the source, and starts the connection worker or gives up at once. |
| `SessionInstance.Instance.PublishConnection` | wasm/main.cpp:290-310 | Running only for the current session that was not cancelled. |
| `SessionInstance.Instance.CloseSource` | wasm/main.cpp:185-198 | Whether it is safe, and the ticket that has to be waited for. |
| `SessionInstance.Instance.StopThread` | wasm/main.cpp:154-208 | The whole stop worker, for everything the platform may answer: it leaves what a run of its abstract steps leaves, and the session is idle with all media released exactly when the open is over and the close, if one is needed, succeeded in time; otherwise blocked. |
| `SessionInstance.WholeSession` | wasm/main.cpp:87-313 | From idle there is a run through a whole session, Running included, to idle again. |
| `SessionInstance.ManySessions` | wasm/main.cpp:87-313 | So any number of sessions can follow each other. |
| `Timeline.Generator.NextPacketPts` | wasm/wasmplayer.cpp:649-786 | The timestamp and the new state for every frame, jumps and re-anchoring included. |
| `Timeline.ServoDirection` | wasm/wasmplayer.cpp:772-785 | Against the even step a timestamp is ahead exactly when the filtered lead is more than 8 ms below its target, behind exactly when it is more than 8 ms above, by 0.05 ms for each frame, and even otherwise. |
| `Timeline.ServoApproaches` | wasm/wasmplayer.cpp:772-785 | A correction never takes the lead further from its target, and nearer exactly when it is more than 8 ms off. |
| `Timeline.StepChanges` | wasm/wasmplayer.cpp:743-768 | The step changes only after 64 frames or more, to the host's time for each of them, exactly when that is between half and twice the nominal step. |
| `Timeline.LossKeepsTime` | wasm/wasmplayer.cpp:708-785 | Frames lost inside a window do not matter: the next timestamp and the state are what they would have been. |
| `Timeline.Reanchored` | wasm/wasmplayer.cpp:665-706 | After a flush the timeline stands 30 ms ahead of the platform, or one step on where that is not known, with a new window and the servo unset. |
| `Timeline.RestartedAt` | wasm/wasmplayer.cpp:711-720 | A frame number that did not advance, or by more than 120, is one nominal frame further, with a new window and the nominal step. |
| `Timeline.EvenlyOn` | wasm/wasmplayer.cpp:743-785 | From there, as from the first frame, a window's frames go on evenly. |
| `Timeline.SteadyAt` | wasm/wasmplayer.cpp:743-785 | Where every frame of an undisturbed run stands. |
| `Timeline.NoDrift` | wasm/wasmplayer.cpp:741-786 | At every window's end the timeline is 63 nominal frames plus the host's elapsed time plus the servo's corrections, for every window. |
| `Timeline.NoDriftUnset` | wasm/wasmplayer.cpp:743-785 | With the servo unset, exactly 63 nominal frames plus the host's elapsed time. |
| `Timeline.CorrectionsBounded` | wasm/wasmplayer.cpp:775-783 | The servo adds at most its ceiling for each frame. |
| `Timeline.IncreasesWhen` | wasm/wasmplayer.cpp:649-786 | A timestamp exceeds the one before exactly when the frame restarts the window, or the servo does not pull back, or the step in use is longer than the servo's ceiling. |
| `Timeline.Increasing` | wasm/wasmplayer.cpp:649-786 | So timestamps strictly increase, whatever arrives, below ten thousand frames a second. |
| `Timeline.RunIncreasing` | wasm/wasmplayer.cpp:649-786 | Over every run from the first frame on, with any frame numbers, host times and servo, they strictly increase from zero. |
| `Timeline.ForwardExactlyWhen` | wasm/wasmplayer.cpp:772-785 | They increase in every run, and from every state with a paced step, exactly when a nominal frame is longer than a tenth of a millisecond. |
| `Timeline.HeldStill` | wasm/wasmplayer.cpp:772-785 | The other side: at ten thousand frames a second and more, a run from a fresh start with any number of windows of 80 frames in 4 ms, after which a lead ten milliseconds too long holds the timeline still or turns it back. |
| `PositionClock.OneWriter` | wasm/video_timing.hpp:21-28 | In every interleaving at most one writer is inside, and the number is odd exactly while one is. |
| `PositionClock.AcceptsWhen` | wasm/video_timing.hpp:29-37 | A reader accepts exactly when the changes since its first load are a multiple of 2^32. |
| `PositionClock.ReadWhole` | wasm/video_timing.hpp:29-37 | Whatever a finished Read returns in any interleaving is the empty sample or a pair one Store wrote that was current at some moment of the Read, unless 2^31 stores or more finished during it. |
| `PositionClock.ThreeAttempts` | wasm/video_timing.hpp:29-37 | Among any other steps a Read makes three attempts and no more: after the third that came to nothing it returns the empty sample, and not before. |
| `PositionClock.TornAfterTurn` | wasm/video_timing.hpp:29-37 | The bound is tight: a run with exactly 2^31 stores during a Read that returns a position and a time never stored together. |
| `PositionClock.Clock.Store` | wasm/video_timing.hpp:21-28 | Alone, writes the pair and leaves the number even, or refuses on an odd one. |
| `PositionClock.Clock.Read` | wasm/video_timing.hpp:29-37 | Alone, returns the pair, or the empty sample after three odd looks. |

## Left out

- Decompress.Decompress: states what happens for messages the compressor wrote; what a malformed message decompresses to is not modelled, nor is the early return inside a subcontext it can cause.
- Compress.Compress: every buffer after the first holds at least one byte, as the source reads one without looking.
- SpsUnit.ReadUnit: only the branch for sequence parameter sets; other NAL unit types are not part of this model.
- SpsReader.ReadSps: the parameter set is a value built from what was read instead of a structure filled in place; fields that follow each other with the same code are read in a loop.
- SpsWriter.WriteSps: prints what the reader can return, so fields out of their range are not modelled.
- Incoming.Channel.HandleReliable: whether too much data waits already is a parameter, as the source's sum of waiting data is not kept exactly when commands are dropped.
- Transport.RunSafe: copies of packets that begin more than nine windows behind the receiver, and acknowledgements whose number names a later command, take no step, as with `Link.Link.Drive` below.
- Incoming.Channel.ArriveFragment: copies at most nine windows behind, counted from the packet's first number, arrive; `Incoming.OldIsTakenForNew` says which of the others are taken for new ones.
- Incoming.Channel.Dispatch: the dispatched packets are kept as a growing log; handing them to the application and the dispatch queue of peers are left out.
- Outgoing.Sender.SendPass: what stops a pass other than the send gate (throttle window, packet size, full buffers) is a parameter.
- Outgoing.Sender.CheckTimeouts: which commands have expired is a parameter; round trip estimates and the disconnection after too many attempts are left out.
- Outgoing.Sender.HandleAcknowledge: finds and uncounts the command; the time an acknowledgement carries, from which the source estimates round trips and rejects what seems to come from the future, is left out.
- Link.Link.Drive: copies of packets that begin more than nine windows behind the receiver (late ones, and retransmissions of packets of more than 12289 fragments), and acknowledgements whose number names a later command, do nothing there; `Incoming.OldIsTakenForNew` and `Transport.LateAcknowledgement` say exactly what they would do.
- Outgoing.MaskDecides: the sender itself keeps its flags as a sequence; this lemma says the word of bits decides the same.
- LinkedList.Move: both lists are different, as they are at every call.
- Bandwidth.Host.Recalculate: on a tick that no connected peer was settled at before; the throttling of outgoing data in the same function (moonlight-common-c/enet/host.c:336-420), whose 32-bit products wrap, is left out.
- SpsLimits.StepRefused: for one list; `FixupSps.FixupRereads` has the exact condition for all.
- Timeline.Generator.NextPacketPts: numbers are real, without floating-point rounding; the statistics kept on the way and how the servo's filter is fed are left out: in a run the servo may hold anything before every frame, with a target in the range of its calibration.
- Session.Safety: StartStream is one step of the main thread and LiStartConnection opens the source at most once; mutexes, condition variables and waiting times appear only as atomic steps and as waits that may run out of time.
- Session.TeardownEnds: joins end once the other thread has ended, the connection attempt returns at some point, and the main thread serves calls between its own steps.
- SessionInstance.Instance.StopThread: the joins are taken to be over, as the two other workers have ended; waiting itself is not modelled.
- PositionClock.ReadWhole: the atomic accesses are sequentially consistent, as the source's defaults are.
- Peers with a delayed disconnect discard arriving commands; the receiver here is connected.
- Unreliable and unsequenced traffic, several channels, checksums, compression of packets and the sockets under them.
- Allocation failure, logging, and memory that the source frees.
- SVC extensions, picture parameter sets, slice headers and SEI messages, which repeat the same patterns; `_write_ff_coded_number` and `_read_ff_coded_number`, which do not invert each other on multiples of 255.
- HTTP, pairing, input events, audio, overlays and the web pages around the client.
- The audio ring and the gamepad snapshot, whose other sides are written in JavaScript.
