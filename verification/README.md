# Audio data path of the earbud firmware: a model in Dafny

The firmware moves compressed and raw audio between interrupt handlers, threads and two processor cores
through rings, framed queues and small state machines. This project models those parts and proves what they
are for. Methods follow the source statement by statement over arrays and fields and are proved against
specification functions; concurrent parts are also modelled as a transition system of single steps, about
which whole runs are proved, and lemmas connect the two.

| file | models |
|---|---|
| `Ring.dfy`, `CQueue.dfy` | addressing in a circular buffer; the byte queue between receiver and player |
| `InCache.dfy`, `InCacheProtocol.dfy` | the ring from the MCU to the co-processor, as methods and under interleaving |
| `AacFraming.dfy` | AAC packets with a length in front, in the queue and through the ring |
| `LhdcAssembler.dfy`, `LhdcLoss.dfy`, `LhdcLoader.dfy` | putting LHDC frames together from fragments, also after losses; finding tagged frames in the ring |
| `DecodeSlots.dfy`, `DecodeSlotsProtocol.dfy`, `DecodeSlotsRuns.dfy` | the three PCM slots filled by the co-processor and drained by the MCU |
| `ScoHandoff.dfy`, `ScoProtocol.dfy` | voice processing on the co-processor with one frame of delay |
| `UpsampleFir.dfy` | the polyphase upsampling filter |
| `EchoRing.dfy` | the echo reference ring with a full flag |
| `SbcCrc.dfy`, `MsbcFraming.dfy`, `PacketLoss.dfy` | the table-driven CRC, mSBC packets with 2-bit numbers, loss detection |
| `Bits.dfy`, `MpuRegions.dfy` | masks as arithmetic; write protection of fast RAM by MPU sub-regions |
| `AudioList.dfy` | the list of streams and prompts |
| `VoiceDetector.dfy` | the command machine of the voice detector |
| `CdcParser.dfy` | the packet parser of the factory serial link |
| `PatternPlayer.dfy`, `SpecTimer.dfy` | the factory test tone; the long timer |

`dafny verify dfyconfig.toml` checks everything.

## What the proofs show about the code

Most intended properties hold for all inputs and all interleavings. Some hold only under a condition, which is
proved to be the exact one:

* A decoded block can be freed without having been played. This happens exactly when the co-processor completes
  the slot between the MCU's two readings of its state, or the slot has another length than asked for
  (`UnplayedAreLosses`, `PlayedInOrder`; a run from start-up: `RaceIsReached`, `RaceLosesBlock`).
* A decode call that continues a slot is given the room of a whole slot. It keeps to its slot for all outputs only
  if nothing was carried over (`CallKeepsOthers`); otherwise it can overwrite a decoded block that was not yet
  played (`CarryOverwritesUndrained`), and the slot it completes is never played (`CarriedSlotIsNotPlayed`).
  Which slots each core may touch holds for every decoder all the same (`SlotsAreNotShared`).
* The filter is exact only for samples of magnitude up to 29835 (`ExactIffSmall`).
* The echo ring needs a size that is a multiple of the chunk length (`SizeMustBeMultiple`).
* The loss detector notices a loss only when it is no multiple of four and the packet before it passed; of losses
  in a row it notices every other one (`StreamKinds`, `EveryOtherLossIsNoticed`). Its repetition check can reject a
  packet before which nothing is missing (`RepeatedContentIsRejected`).
* Lost packets cost exactly the LHDC frames they belong to, as long as the losses in a row are never a multiple of
  256, which the 8-bit numbers cannot tell from none (`LossesCostTheirFrames`, `Resumes`, `ExpectedIsSwallowed`).
* An LHDC frame is copied past its buffer exactly for an unfragmented payload above 4096 bytes (`OverrunsExactly`),
  and the loader's test for a complete frame is right exactly if length and header fit 32 bits (`TestIsRight`).
* Frame protection near the end of the address space wraps and covers other memory (`CoverageIsExact`,
  `WrapIsWrong`). The test for a negative sub-region size never holds, as the size is unsigned; a later length
  test refuses such frames instead.
* Starting a player removes the entry of the player in the way from the list. A stream that replaces a playing
  prompt makes the next prompt be passed over and leaves it at the head, where it blocks all further prompts
  (`OpenedInOrder`, `StreamOverPrompts`, `Stalled`). A prompt over music removes itself, and the music is not
  resumed (`PromptOverStream`). The branch that keeps the front entry of a full audio list cannot be reached.
* Detector events are legal exactly in the states that expect them; starting a capture also needs its stream to
  be set up (`LegalIffAdmitted`, `RunIsLegal`).

## Assumptions

* Memory is sequentially consistent: a step of one core is seen whole by the other. A guarded section is one step.
* Codecs and signal processing are arbitrary functions, or arbitrary results within their contracts.
* The MPU reads its registers as section B3.5 (PMSAv7) of the ARMv7-M Architecture Reference Manual says. The
  packet header follows section 5.7.2 of the Hands-Free Profile 1.6, the CRC section 12 (Appendix B) of the
  Advanced Audio Distribution Profile 1.3.

## Model

| member | source | states |
|---|---|---|
| Ring.AdvanceIsMod | utils/cqueue/cqueue.c:284-319 | moving a position with one conditional subtraction is addition modulo the size |
| Ring.GatherAppended | apps/audioplayers/a2dpplay.cpp:2588-2678 | bytes laid down behind the contents of a ring extend the contents and disturb none of them |
| Ring.OverwriteTwice | apps/audioplayers/a2dpplay.cpp:2627-2668 | two pieces stored one behind the other, each possibly cut at the end of the memory, are one circular store |
| Ring.GatherDrop | apps/audioplayers/a2dpplay.cpp:2337-2346 | moving the read position by k drops exactly the k oldest bytes |
| CQueues.CQueue.constructor | utils/cqueue/cqueue.c:29-39 | an initialised queue is empty |
| CQueues.CQueue.Enqueue | utils/cqueue/cqueue.c:64-86 | appends all bytes or none; it refuses exactly when they do not fit, wherever the memory wraps |
| CQueues.CQueue.Dequeue | utils/cqueue/cqueue.c:284-319 | drops the oldest n bytes, or nothing exactly when there are fewer |
| CQueues.CQueue.Peek | utils/cqueue/cqueue.c:322-343 | the two pieces joined are the oldest bytes, wherever they are cut; it fails exactly when too much is wanted |
| InCaches.InCache.Load | apps/audioplayers/a2dpplay.cpp:2588-2678 | moves as many bytes as are queued and fit, in order, from queue to ring; the error return is never taken; no other ring byte changes |
| InCaches.InCache.StorePieces | apps/audioplayers/a2dpplay.cpp:2627-2668 | the four-way copy of two queue pieces around the end of the ring is one circular store |
| InCaches.InCache.GetData | apps/audioplayers/a2dpplay.cpp:2321-2335 | returns the next n bytes also where they straddle the end of the ring |
| InCaches.Free | apps/audioplayers/a2dpplay.cpp:2596-2604 | free room, use and the one byte kept free add up to the size, so full and empty differ |
| InCacheProtocol.RunKeepsInv | apps/audioplayers/a2dpplay.cpp:2307-2346 | the two-core invariant (snapshots never overstate, copied bytes are the queue's) survives every interleaving of snapshot, copy and publish steps |
| InCacheProtocol.NothingLost | apps/audioplayers/a2dpplay.cpp:2588-2678 | for every interleaving: bytes consumed, then ring contents, then the queue not yet handed over are exactly the bytes ever enqueued |
| InCacheProtocol.MemoryIsNotShared | apps/audioplayers/a2dpplay.cpp:2588-2678 | for every interleaving: the byte the MCU writes next is none the co-processor may still read, by its own snapshot or the published positions |
| InCacheProtocol.CopiesAreOverwrite | apps/audioplayers/a2dpplay.cpp:2627-2668 | uninterrupted byte copies are one circular block copy |
| InCacheProtocol.LoadIsARun | apps/audioplayers/a2dpplay.cpp:2588-2678 | the method InCaches.InCache.Load is the machine's load run without interruption: the two models agree |
| InCacheProtocol.FetchIsARun | apps/audioplayers/a2dpplay.cpp:2321-2346 | the machine's fetch run without interruption takes exactly the oldest bytes, as InCaches.InCache.GetData returns them |
| AacFraming.Header | apps/audioplayers/a2dpplay.cpp:657-724 | the two length bytes decode to the length they were made from |
| AacFraming.MaxRead | apps/audioplayers/a2dpplay.cpp:2212-2229 | the read size is the smallest power of two from 64 to 2048 above the packet length |
| AacFraming.AacQueue.PutFrame | apps/audioplayers/a2dpplay.cpp:657-724 | length and packet go in together or not at all; refused exactly when both do not fit |
| AacFraming.AacQueue.StoreCaching | apps/audioplayers/a2dpplay.cpp:510-553 | the queue stays a concatenation of whole frames; a refused packet ends caching and is the only one counted without being queued |
| AacFraming.AacQueue.StorePlaying | apps/audioplayers/a2dpplay.cpp:657-724 | only a stored packet is counted; the queue stays a concatenation of whole frames |
| AacFraming.AacQueue.Load | apps/audioplayers/a2dpplay.cpp:1077-1130 | returns the oldest packet whole; once the length was read the payload read cannot fail; counts, framing and the bad-header case (2048 bytes or more) |
| AacFraming.CpLoad | apps/audioplayers/a2dpplay.cpp:2193-2253 | the ring loader computes the parse of the ring contents and consumes exactly a complete packet, also when length or packet straddle the end |
| AacFraming.HeadOfStream | apps/audioplayers/a2dpplay.cpp:2193-2253 | from any part of a stream that has arrived the loader takes the first packet exactly when all of it is there, and never reports a bad header |
| AacFraming.LoaderReturnsPackets | apps/audioplayers/a2dpplay.cpp:2193-2253 | for every interleaving and every splitting by the ring: the packets loaded are a prefix of the packets sent, and the bytes consumed are exactly theirs |
| LhdcAssembler.Assembler.Reset | apps/audioplayers/a2dpplay.cpp:1663-1669 | forgets the partial frame and the synchronisation, keeps the number |
| LhdcAssembler.OverrunsExactly | apps/audioplayers/a2dpplay.cpp:1793-1810 | a frame longer than the buffer is put out exactly for a whole payload above 4096 bytes where a frame may begin; everything else is checked |
| LhdcAssembler.Assembler.Take | apps/audioplayers/a2dpplay.cpp:1758-1872 | for every state and every packet that does not overrun the buffer the method computes the specified transition and output |
| LhdcAssembler.Assembler.TakeFirst | apps/audioplayers/a2dpplay.cpp:1782-1826 | outside a frame: a whole payload is emitted, an S fragment is kept, anything else is dropped |
| LhdcAssembler.Assembler.TakeNext | apps/audioplayers/a2dpplay.cpp:1827-1866 | inside a frame: the fragment is appended if it fits, emitted on L, abandoned otherwise |
| LhdcAssembler.FieldsRoundTrip | apps/audioplayers/a2dpplay.cpp:1758-1776 | flags, latency level, number and payload of a packet are those the sender put there |
| LhdcAssembler.ReturnTells | apps/audioplayers/a2dpplay.cpp:1758-1872 | the three return codes, each exactly in its cases |
| LhdcAssembler.PacketIsJustified | apps/audioplayers/a2dpplay.cpp:1758-1872 | one packet keeps the account of which received packets make up the partial frame and the output |
| LhdcAssembler.FramesAreJustified | apps/audioplayers/a2dpplay.cpp:1758-1872 | for any packets: emitted frames come from disjoint stretches in order; each is a whole payload or consecutive numbers modulo 256 from an S fragment to the first later L fragment, so no fragments across a gap are joined |
| LhdcAssembler.LosslessStream | apps/audioplayers/a2dpplay.cpp:1758-1872 | a lossless, well fragmented stream of frames that fit comes out as exactly the original frames, in order |
| LhdcLoss.Resumes | apps/audioplayers/a2dpplay.cpp:1771-1791 | from every state that does not take the first packet for a continuation (a gap, a frame given up, or no synchronisation) a stream comes out as exactly its frames |
| LhdcLoss.LossesCostTheirFrames | apps/audioplayers/a2dpplay.cpp:1758-1872 | whatever packets of a stream do not arrive, exactly the frames that arrive whole come out, in order, as long as the losses in a row are never a multiple of 256 |
| LhdcLoss.ExpectedIsSwallowed | apps/audioplayers/a2dpplay.cpp:1827-1866 | after a loss of a multiple of 256 the numbers look right: a whole frame is swallowed by the one under way |
| LhdcLoader.LengthRoundTrip | apps/audioplayers/a2dpplay.cpp:480-485 | the length written behind the tag is the length read back |
| LhdcLoader.Seek | apps/audioplayers/a2dpplay.cpp:2148-2161 | the search with restarts stops at the first tag with a whole header behind it, or where no such header has arrived |
| LhdcLoader.Load | apps/audioplayers/a2dpplay.cpp:2121-2188 | the tag search with restarts computes the parse of the ring contents, and moves the read position only past a complete frame |
| LhdcLoader.TestIsRight | apps/audioplayers/a2dpplay.cpp:2163-2165 | the 32-bit test for a complete frame is right for every amount of data if and only if header and length do not wrap |
| LhdcLoader.LoaderTakesHead | apps/audioplayers/a2dpplay.cpp:2121-2188 | of garbage followed by frames, the first frame is taken if and only if all of it has arrived; otherwise nothing is consumed |
| LhdcLoader.AfterCall | apps/audioplayers/a2dpplay.cpp:2121-2188 | after a call ring and future bytes together are what follows the frame taken |
| LhdcLoader.FramesComeOut | apps/audioplayers/a2dpplay.cpp:2121-2188 | however a stream of tagged frames is cut into arrivals, what the loader has returned at any time is a prefix of its frames, whole and in order |
| LhdcLoader.EveryFrameComesOut | apps/audioplayers/a2dpplay.cpp:2121-2188 | once the whole stream has arrived, in any pieces, as many further calls as there are frames bring out exactly all of them |
| DecodeSlots.Slots.Init | apps/audioplayers/a2dpplay.cpp:2554-2585 | slots from the MCU's own on start as decoded; a second call changes nothing |
| DecodeSlots.Slots.DecodeBegin | apps/audioplayers/a2dpplay.cpp:2349-2367 | begins exactly in an idle or unfinished slot and changes no finished one |
| DecodeSlots.Slots.DecodeEnd | apps/audioplayers/a2dpplay.cpp:2447-2486 | adds the output; without retry marks the slot done exactly when it is full, failed otherwise, and moves on cyclically |
| DecodeSlots.Slots.DecodeLoop | apps/audioplayers/a2dpplay.cpp:2505-2522 | the decode loop stops when the slot is full, decoding failed or input ran out, with the output of all attempts in place |
| DecodeSlots.Slots.DecodeFrame | apps/audioplayers/a2dpplay.cpp:2489-2525 | a call in a finished slot changes nothing; otherwise it is begin, decode and end |
| DecodeSlots.Slots.MainRound | apps/audioplayers/a2dpplay.cpp:2528-2551 | one round of the co-processor task, with the window start and restart rule of the source |
| DecodeSlots.Slots.Process | apps/audioplayers/a2dpplay.cpp:2681-2727 | delivers the slot exactly when it is done and of the wanted length, frees a finished slot in any case, touches nothing else |
| DecodeSlots.DecodedInOrder | apps/audioplayers/a2dpplay.cpp:2505-2522 | the outputs of one call lie one behind the other from the start of its window, up to the one that fills the slot, the first failure or the end of the input; the call is to be continued exactly in the last case |
| DecodeSlots.CallKeepsOthers | apps/audioplayers/a2dpplay.cpp:2534-2548 | a decode call leaves the memory of the other slots alone for every output if and only if nothing was carried over into its slot |
| DecodeSlots.CarriedSlotIsNotPlayed | apps/audioplayers/a2dpplay.cpp:2447-2486 | a slot completed after something was carried over counts more than a slot, so the player, which wants exactly a slot, never delivers it |
| DecodeSlots.WindowFits | apps/audioplayers/a2dpplay.cpp:2534-2548 | the window of a call lies in memory unless it continues the last slot with more carried over than the memory has to spare |
| DecodeSlotsProtocol.RunKeepsOwned | apps/audioplayers/a2dpplay.cpp:2349-2367 | for every decoder and every interleaving: slots from the MCU's index cyclically up to the co-processor's are done or failed, the rest idle, except the one being filled; blocks are played in strictly increasing order |
| DecodeSlotsProtocol.SlotsAreNotShared | apps/audioplayers/a2dpplay.cpp:2528-2585 | for every run from start-up: the co-processor decodes in a working slot, which is no undrained one; the MCU copies only a done slot, never the one being filled |
| DecodeSlotsProtocol.RunKeepsInv | apps/audioplayers/a2dpplay.cpp:2447-2486 | as long as no call carries output over, every undrained done slot holds exactly the block decoded into it, and every block played is the one decoded |
| DecodeSlotsProtocol.FullSlotsCarryNothing | apps/audioplayers/a2dpplay.cpp:2505-2522 | a decoder that fills a slot from one load never carries anything over |
| DecodeSlotsProtocol.RunLosses | apps/audioplayers/a2dpplay.cpp:2693-2717 | for every decoder and run: blocks given back unplayed, and the one on its way out, are the completions between the MCU's two looks at a slot and the slots found of another length |
| DecodeSlotsProtocol.UnplayedAreLosses | apps/audioplayers/a2dpplay.cpp:2693-2717 | for every run from start-up: blocks decoded and dealt with minus blocks played is that number of races and mismatches, less the one on its way out |
| DecodeSlotsProtocol.PlayedInOrder | apps/audioplayers/a2dpplay.cpp:2681-2727 | without carrying over, the blocks played are, in order and content, some of the blocks decoded; all of them if and only if the schedule has no race and no mismatch but the one on its way out |
| DecodeSlotsProtocol.RaceLosesBlock | apps/audioplayers/a2dpplay.cpp:2693-2717 | a schedule in which the double reading of the slot state loses a block |
| DecodeSlotsProtocol.RaceIsReached | apps/audioplayers/a2dpplay.cpp:2693-2717 | a run from start-up that ends where that schedule begins |
| DecodeSlotsProtocol.CarryOverwritesUndrained | apps/audioplayers/a2dpplay.cpp:2534-2548 | a run from start-up in which input runs out in the middle of a slot: the next call overwrites a decoded block not yet played in the next slot |
| DecodeSlotsRuns.CallIsARun | apps/audioplayers/a2dpplay.cpp:2489-2551 | for every decoder the machine's steps of one call without interruption have the effect of Slots.MainRound, and end the slot with what then lies in it |
| DecodeSlotsRuns.TurnIsARun | apps/audioplayers/a2dpplay.cpp:2681-2727 | the machine's steps of one turn of the MCU without interruption play and give back what Slots.Process states |
| ScoHandoff.Bridge.Init | apps/audioplayers/bt_sco_chain_cp.c:171-216 | silence in all three buffers, counters zero, ownership with the caller |
| ScoHandoff.Bridge.Process | apps/audioplayers/bt_sco_chain_cp.c:77-131 | with the buffers idle: input and reference go in, the previous result comes out, the buffers change hands; without an owner nothing happens |
| ScoHandoff.Bridge.CpMain | apps/audioplayers/bt_sco_chain_cp.c:136-168 | runs the algorithm once on the handed-over frame and publishes frame and length |
| ScoProtocol.RunKeepsInv | apps/audioplayers/bt_sco_chain_cp.c:77-168 | the ownership invariant survives every interleaving of caller and co-processor |
| ScoProtocol.InitIsSilent | apps/audioplayers/bt_sco_chain_cp.c:171-216 | what Bridge.Init leaves is silence, idle and owned by the caller, whatever was in the buffers: the start of every run below |
| ScoProtocol.EveryCallReturnsPrevious | apps/audioplayers/bt_sco_chain_cp.c:77-131 | from what Init leaves, for any algorithm and interleaving, call n returns the result for input n-1 in call order; call 1 returns silence of one frame length |
| ScoProtocol.BuffersAreOwned | apps/audioplayers/bt_sco_chain_cp.c:77-168 | the caller touches the buffers only while idle, the co-processor only while working; the counters differ by one exactly while a frame is outstanding |
| ScoProtocol.CallBegins | apps/audioplayers/bt_sco_chain_cp.c:77-100 | a call of the right size begins its exchange exactly when the buffers are idle |
| ScoProtocol.ExchangeIsARun | apps/audioplayers/bt_sco_chain_cp.c:77-131 | the machine's steps of one exchange together are the effect of Bridge.Process |
| ScoProtocol.ExchangeHandsOver | apps/audioplayers/bt_sco_chain_cp.c:101-116 | after an exchange the co-processor finds the caller's frame and the last reference frame, and owns the buffers |
| ScoProtocol.ServiceIsARun | apps/audioplayers/bt_sco_chain_cp.c:136-168 | the machine's steps of one service together are the effect of Bridge.CpMain |
| ScoProtocol.ServedPublishes | apps/audioplayers/bt_sco_chain_cp.c:136-168 | after a service the output buffer begins with exactly the result, the caller owns the buffers and the run counter is one more |
| UpsampleFir.Upsampler.Accumulate | apps/audioplayers/voicebtpcmplay.cpp:1692-1706 | the wrapping 32-bit accumulator holds the 24-tap window sum modulo 2^32 |
| UpsampleFir.Upsampler.Run | apps/audioplayers/voicebtpcmplay.cpp:1692-1733 | output is every phase of every window over history and input, shifted by 16; the new history is the last 23 samples, also for inputs shorter than 23 |
| UpsampleFir.Upsampler.Keep | apps/audioplayers/voicebtpcmplay.cpp:1710-1731 | history update for short and long inputs |
| UpsampleFir.ShiftDown | apps/audioplayers/app_audio.cpp:224-231 | copying down in place, in ascending order, moves the block as if there were no overlap |
| UpsampleFir.ChunksDoNotMatter | apps/audioplayers/voicebtpcmplay.cpp:1692-1733 | any cutting of a stream into calls gives the output and final history of one call on the whole |
| UpsampleFir.RowSums | apps/audioplayers/voicebtpcmplay.cpp:1650-1690 | 71978 is the largest absolute coefficient sum over all phases of both tables |
| UpsampleFir.ExactIffSmall | apps/audioplayers/voicebtpcmplay.cpp:1676-1706 | no partial sum leaves 32 bits for all input up to a magnitude if and only if that magnitude is at most 29835 |
| UpsampleFir.ExactOutput | apps/audioplayers/voicebtpcmplay.cpp:1692-1706 | for such input the output is the exact integer convolution divided by 65536, rounded down |
| UpsampleFir.ImpulseResponse | apps/audioplayers/voicebtpcmplay.cpp:1692-1706 | an impulse of any height comes out as the response times its height, beginning with the first window that contains it |
| UpsampleFir.ResponseIsSmooth | apps/audioplayers/voicebtpcmplay.cpp:1650-1690 | read in output order, from phase to phase and from sample to sample, the response is one curve whose steps are at most 6809 (12996 at 16 kHz) |
| UpsampleFir.PeakRisesAndFalls | apps/audioplayers/voicebtpcmplay.cpp:1692-1706 | the outputs for an impulse rise strictly through the phases before its middle and fall strictly behind it |
| EchoRing.Echo.Put | apps/audioplayers/voicebtpcmplay.cpp:1962-1988 | appends the chunk and sets the flag as specified, or reports the assertion of the source that fails |
| EchoRing.Echo.Take | apps/audioplayers/voicebtpcmplay.cpp:1763-1789 | takes the oldest bytes, or reports the assertion of the source that fails |
| EchoRing.QueueLenCounts | apps/audioplayers/voicebtpcmplay.cpp:1763-1775 | the length computed from positions and flag is the bytes written and not yet read |
| EchoRing.FaultsTell | apps/audioplayers/voicebtpcmplay.cpp:1962-1988 | which of the four assertions fails, in terms of the bytes stored and the end of the memory, for every length; without a fault the bytes taken are the oldest |
| EchoRing.RunIsFifo | apps/audioplayers/voicebtpcmplay.cpp:1763-1789 | every legal run returns what a plain queue would and no assertion fails |
| EchoRing.SizeMustBeMultiple | apps/audioplayers/voicebtpcmplay.cpp:1962-1988 | the assertions never fail over any legal run if and only if the size is a multiple of the chunk, or smaller than one |
| SbcCrc.TableIsShift8 | apps/audioplayers/plc_utils.c:39-60 | all 256 table entries are eight steps of the polynomial division |
| SbcCrc.FoldIsDivision | apps/audioplayers/plc_utils.c:98-135 | folding the table over any bytes is bit-serial division by x^8+x^4+x^3+x^2+1 from the same start value |
| SbcCrc.FoldInjective | apps/audioplayers/plc_utils.c:98-135 | different registers stay different over equal data |
| SbcCrc.BurstIsDetected | apps/audioplayers/plc_utils.c:98-135 | two strings that differ only within eight consecutive bits never share a CRC |
| MsbcFraming.Sender.NextCounter | apps/audioplayers/voicebtpcmplay.cpp:1416-1436 | the n-th number byte encodes n modulo 4 with each bit doubled, for any number of calls |
| MsbcFraming.Sender.Build | apps/audioplayers/voicebtpcmplay.cpp:1516-1530 | header, encoded frame and padding of packet n |
| MsbcFraming.FoldScaleFactors | apps/audioplayers/plc_utils.c:110-131 | the half-byte loop folds exactly the four scale-factor bytes |
| MsbcFraming.ParseHeader | apps/audioplayers/plc_utils.c:65-146 | computes the specified error code and number |
| MsbcFraming.AcceptsExactlyGood | apps/audioplayers/plc_utils.c:65-146 | number n is reported without error if and only if the header is the sender's for n and the CRC is right |
| MsbcFraming.ErrorsTell | apps/audioplayers/plc_utils.c:65-146 | each error code exactly for its defect: a fixed byte, unequal copies of a number bit, the CRC |
| MsbcFraming.SentIsGood | apps/audioplayers/voicebtpcmplay.cpp:1516-1530 | what the sender builds around a valid encoded frame is accepted with its number |
| MsbcFraming.SentCarriesFrame | apps/audioplayers/voicebtpcmplay.cpp:1516-1530 | a packet has 60 bytes and holds every byte of the encoded frame behind its header |
| MsbcFraming.BurstInHeaderIsNoticed | apps/audioplayers/plc_utils.c:98-135 | two headers that differ within eight consecutive covered bits (bytes 3, 4, 6 to 9) are not both accepted |
| PacketLoss.Detector.UpdateConflict | apps/audioplayers/plc_utils.c:150-190 | compares with the packet before the last and shifts the stored packets |
| PacketLoss.Detector.CheckMute | apps/audioplayers/plc_utils.c:182-191 | muted exactly when all payload bytes have the pattern |
| PacketLoss.Detector.Take | apps/audioplayers/plc_utils.c:222-313 | state, kind and 32-bit histogram after one packet |
| PacketLoss.GoodIsNotMuted | apps/audioplayers/plc_utils.c:182-191 | a good packet is never taken for a muted one |
| PacketLoss.ParseTells | apps/audioplayers/plc_utils.c:65-146 | header error, CRC error or acceptance, each exactly when the bytes of the packet say so |
| PacketLoss.KindTells | apps/audioplayers/plc_utils.c:222-299 | the kind of every packet in every state: muted, repetition, wrong header, wrong CRC, each exactly when its bytes are so; only an undamaged packet passes |
| PacketLoss.HistogramCounts | apps/audioplayers/plc_utils.c:222-313 | every kind has its own counter, which holds the number of packets of that kind modulo 2^32 |
| PacketLoss.AfterDamage | apps/audioplayers/plc_utils.c:222-299 | after a packet that did not pass the next good one passes whatever its number, unless it is a repetition |
| PacketLoss.AfterLoss | apps/audioplayers/plc_utils.c:222-299 | after a pass and k lost packets the next good one passes if and only if k is a multiple of 4 and it does not repeat the packet before the last |
| PacketLoss.AfterLossInSequence | apps/audioplayers/plc_utils.c:222-299 | after two passes in sequence the repetition check does not interfere: pass if and only if k is a multiple of 4 |
| PacketLoss.StreamKinds | apps/audioplayers/plc_utils.c:222-299 | the kind of every packet of a stream of undamaged packets with any numbers and so any losses: a repetition is a conflict; any other fails exactly when its predecessor passed and the number lost in between is no multiple of four |
| PacketLoss.EveryOtherLossIsNoticed | apps/audioplayers/plc_utils.c:222-299 | of losses before each of a row of packets only every other one is noticed, as the packet after a rejected one passes whatever its number |
| PacketLoss.LosslessPasses | apps/audioplayers/plc_utils.c:222-299 | a stream numbered by the sender and received completely passes from its first packet on |
| PacketLoss.RepeatedContentIsRejected | apps/audioplayers/plc_utils.c:150-181 | a stream in which the repetition check rejects the very next packet |
| Bits.AndLow | platform/cmsis/mpu_armv7m.c:68-73 | masking with 2^k - 1 is the remainder modulo 2^k |
| Bits.AndHigh | platform/cmsis/mpu_armv7m.c:224 | masking with the complement of 2^k - 1 rounds down to a multiple of 2^k |
| Bits.DropLowest | platform/cmsis/mpu_armv7m.c:68-70 | x & (x - 1) removes the lowest bit |
| Bits.LsbDivides | platform/cmsis/mpu_armv7m.c:150-153 | 2^k divides x exactly up to the position of the lowest bit |
| MpuRegions.SizeOf | platform/cmsis/mpu_armv7m.c:146-163 | the sub-region size is the largest power of two up to 16 KiB that divides the start; below 128 bytes it is -1, exactly for starts not aligned to 128 |
| MpuRegions.TopBit | platform/cmsis/mpu_armv7m.c:117-130 | the mask switches off exactly the sub-regions from the one holding the frame's end on |
| MpuRegions.BottomBit | platform/cmsis/mpu_armv7m.c:133-143 | the mask switches off exactly the sub-regions before the frame |
| MpuRegions.RasrIsSum | platform/cmsis/inc/mpu_armv7.h:104-124 | the fields joined by or do not overlap |
| MpuRegions.EncodingIsFaithful | platform/cmsis/inc/mpu_armv7.h:75-124 | read back as the architecture defines, the registers apply to exactly the addresses of the setting, with its permissions |
| MpuRegions.AttributesAreFaithful | platform/cmsis/mpu_armv7m.c:81-108 | each of the six attributes is read back as what its name says: data access, execution, and normal shareable cached memory |
| MpuRegions.NullPageIsClosed | platform/cmsis/mpu_armv7m.c:286-295 | the region at address 0 applies to exactly the first 1 or 2 KiB and allows no access and no execution |
| MpuRegions.CheckAccepts | platform/cmsis/mpu_armv7m.c:65-76 | length and alignment tests accept exactly aligned powers of two of at least 32 bytes |
| MpuRegions.CheckTells | platform/cmsis/mpu_armv7m.c:64-76 | each error code exactly for its argument, the first wrong one |
| MpuRegions.Mpu.Open | platform/cmsis/mpu_armv7m.c:22-39 | clears every region, or reports a missing unit |
| MpuRegions.Mpu.Set | platform/cmsis/mpu_armv7m.c:48-109 | the error codes in order, and the one region written |
| MpuRegions.Mpu.ProtectFrame | platform/cmsis/mpu_armv7m.c:199-259 | error 3 and no region for a start not aligned to 128 bytes; otherwise success with the one or two settings; a missing unit is error 1 |
| MpuRegions.Mpu.NullCheck | platform/cmsis/mpu_armv7m.c:286-295 | closes the page at address 0, or reports a missing unit |
| MpuRegions.Mpu.Setup | platform/cmsis/mpu_armv7m.c:336-342 | the page at address 0 is closed and the frame protected where its start is aligned |
| MpuRegions.EveryFrameIsSettable | platform/cmsis/mpu_armv7m.c:117-130 | for every frame the shift amounts are not negative, on the error path too |
| MpuRegions.FirstCovers | platform/cmsis/mpu_armv7m.c:220-240 | the first region covers exactly its addresses from the frame's start to its end rounded down |
| MpuRegions.CoverageIsExact | platform/cmsis/mpu_armv7m.c:199-259 | the enabled sub-regions are exactly the frame in whole sub-regions up to two regions, if and only if no 32-bit wrap occurs |
| MpuRegions.WrapIsWrong | platform/cmsis/mpu_armv7m.c:228-256 | after a wrap address 0, or the last address of memory, is covered without having been asked for |
| MpuRegions.FrameIsProtected | platform/cmsis/mpu_armv7m.c:199-259 | the same equivalence for what the processor reads in the registers |
| MpuRegions.FramePermissions | platform/cmsis/mpu_armv7m.c:242-256 | first region read-only data, second read-only code, every other region untouched |
| AudioList.AudioList.FilterExist | apps/audioplayers/app_audio.cpp:521-553 | a second incoming call, or any other prompt when more than two entries are listed, is filtered |
| AudioList.AudioList.PlaybackExist | apps/audioplayers/app_audio.cpp:555-574 | whether a prompt is listed |
| AudioList.AudioList.StreamExist | apps/audioplayers/app_audio.cpp:485-519 | whether a stream is listed |
| AudioList.AudioList.AppendStatus | apps/audioplayers/app_audio.cpp:596-663 | new list and result in every case; keeping the front entry of a full list is unreachable, since the pool is then empty |
| AudioList.AudioList.RemoveStatus | apps/audioplayers/app_audio.cpp:665-746 | new list and next status in every case; the two assertions of the source hold on every sorted list |
| AudioList.AudioList.StartPlayer | services/bt_app/app_bt_stream.cpp:6973-7105 | a running player that is in the way refuses the new one or is stopped and its entry removed from the tail; list and running player in every case |
| AudioList.AudioList.Process | apps/audioplayers/app_audio.cpp:384-456 | list, running player and the status handed to a player after each request are those of the run model |
| AudioList.RunKeepsInv | apps/audioplayers/app_audio.cpp:384-456 | in every run, whatever the players do: streams before prompts, at most 20 entries, at most four prompts pending |
| AudioList.NextIsPrompt | apps/audioplayers/app_audio.cpp:676-727 | closing the playing prompt opens the next waiting one, or else a stream from the front, or nothing |
| AudioList.TakeOverGetsPlaying | apps/audioplayers/app_audio.cpp:665-746 | a player that takes over the playing prompt is given exactly that prompt; the others stay listed |
| AudioList.FirstThreeAreTaken | apps/audioplayers/app_audio.cpp:521-553 | of any number of ordinary prompts in a row exactly the first three are taken and the first is started |
| AudioList.CallTaken | apps/audioplayers/app_audio.cpp:521-553 | an incoming call is taken exactly when no other is listed |
| AudioList.RoomTakes | apps/audioplayers/app_audio.cpp:596-663 | with room left every stream is taken in front and started, an ordinary prompt only among at most two entries |
| AudioList.FullListTakes | apps/audioplayers/app_audio.cpp:596-663 | a full list takes nothing, but for an incoming call while a prompt and neither a call nor a stream is listed, which throws everything away |
| AudioList.StartedAlone | services/bt_app/app_bt_stream.cpp:6973-7105 | after a start that succeeds exactly the new player runs and the entry of the former one is gone |
| AudioList.StartRefused | services/bt_app/app_bt_stream.cpp:6986-7032 | a player in the way that cannot be stopped keeps everything as it is |
| AudioList.InputBeside | services/bt_app/app_bt_stream.cpp:7001-7016 | an input player that may run beside the others disturbs neither list nor output player |
| AudioList.StoppedForNothing | services/bt_app/app_bt_stream.cpp:6973-7105 | a player stopped for one that does not start is gone all the same |
| AudioList.CloseStops | services/bt_app/app_bt_stream.cpp:7109-7190 | a CLOSE stops its own player and no other |
| AudioList.CloseStartsNext | apps/audioplayers/app_audio.cpp:407-441 | the player next in the list runs after a CLOSE |
| AudioList.CloseAllEnds | apps/audioplayers/app_audio.cpp:449-456 | CLOSEALL leaves nothing listed and nothing running |
| AudioList.OpenedInOrder | apps/audioplayers/app_audio.cpp:384-456 | in every run prompts are started in the order accepted, each once; all accepted ones are started or waiting if and only if none was passed over when a prompt was taken off the list of several |
| AudioList.OneAtATime | apps/audioplayers/app_audio.cpp:384-442 | in every run every accepted prompt is listed or ended by its own CLOSE if and only if nothing else took one off the list; then the prompts started are those ended and the one at the head |
| AudioList.PromptOverStream | services/bt_app/app_bt_stream.cpp:6986-7032 | a prompt started over music removes its own entry, and its end does not resume the music that is still listed |
| AudioList.StreamOverPrompts | services/bt_app/app_bt_stream.cpp:6986-7032 | two prompts, then music that replaces the first and ends: the second is listed at the head, nothing runs, it was never started |
| AudioList.Stalled | apps/audioplayers/app_audio.cpp:384-456 | with a prompt at the head of a list that is not full, no number of prompt OPENs and stream CLOSEs starts anything |
| VoiceDetector.CommandQueue.Enqueue | apps/voice_detector/voice_detector.c:85-97 | first in, first out; full after 15 entries since it was last empty |
| VoiceDetector.CommandQueue.Dequeue | apps/voice_detector/voice_detector.c:99-116 | takes the oldest command; an emptied queue has all its room again |
| VoiceDetector.Detector.Open | apps/voice_detector/voice_detector.c:167-198 | resets the device, or -2 and no change when it is open already |
| VoiceDetector.Detector.SetupCapture | apps/voice_detector/voice_detector.c:241-263 | completes the capture stream of an open device, or -2 |
| VoiceDetector.Detector.ProcessCmd | apps/voice_detector/voice_detector.c:505-529 | effect and error of each command |
| VoiceDetector.Detector.Send | apps/voice_detector/voice_detector.c:305-321 | queues all commands, or those that fit and -2 |
| VoiceDetector.Detector.Run | apps/voice_detector/voice_detector.c:566-633 | runs the queue to the end in order; a closed device runs nothing |
| VoiceDetector.Detector.Process | apps/voice_detector/app_voice_detector.cpp:66-116 | an event runs exactly the commands chosen by the state found; the queue never overflows on an open device |
| VoiceDetector.Detector.VadInterrupt | apps/voice_detector/app_voice_detector.cpp:129-149 | posts an event exactly for the first interrupt since the VAD was started, while listening |
| VoiceDetector.LegalIffAdmitted | apps/voice_detector/app_voice_detector.cpp:66-116 | in a resting state an event misuses a stream if and only if it is not admitted; then exactly one of VAD and capture runs, or none is open after a close |
| VoiceDetector.RunIsLegal | apps/voice_detector/app_voice_detector.cpp:66-116 | over every life of the device all stream operations are legal if and only if every event was admitted |
| VoiceDetector.SetupDecides | apps/voice_detector/voice_detector.c:241-263 | capture can be started while listening exactly if the stream set up last is complete |
| VoiceDetector.ReopenForgets | apps/voice_detector/voice_detector.c:167-198 | a reopened device has forgotten its stream: listening works, with a new count of wake-ups, capture does not |
| VoiceDetector.ListeningIsSlow | apps/voice_detector/app_voice_detector.cpp:66-116 | after a start of the VAD the slow clock runs, after any other event the fast one |
| VoiceDetector.PostedFrom | apps/voice_detector/app_voice_detector.cpp:129-149 | over any number of interrupts from any counter value one event is posted each time the 32-bit counter passes from 0 to 1 |
| VoiceDetector.OnePostPerStart | apps/voice_detector/voice_detector.c:337-356 | after an admitted start of the VAD exactly one event is posted by any number of interrupts from 1 to 2^32, then one more for each begun 2^32 |
| VoiceDetector.NothingPosted | apps/voice_detector/app_voice_detector.cpp:129-149 | while the detector is not listening no number of interrupts posts anything |
| CdcParser.Link.CheckSum | apps/factory/app_factory_cdc_comm.c:15-25 | the loop computes the sum of the bytes modulo 256 |
| CdcParser.Link.SendReply | apps/factory/app_factory_cdc_comm.c:27-45 | sends the frame of the reply, or -1 and nothing when it is too long |
| CdcParser.Link.Resync | apps/factory/app_factory_cdc_comm.c:232-242 | leaves everything from the first prefix on in place and asks for exactly the rest |
| CdcParser.Link.HandleData | apps/factory/app_factory_cdc_comm.c:152-209 | error, accepted message and answer of a complete packet |
| CdcParser.Link.ParsePacket | apps/factory/app_factory_cdc_comm.c:211-257 | state, request and replies after each parse; a partial refill is only asked for with the prefix in place |
| CdcParser.Link.Receive | apps/factory/app_factory_cdc_comm.c:267-312 | one turn of the main loop refines the stream parser; an error starts the header over |
| CdcParser.LocksOntoPrefix | apps/factory/app_factory_cdc_comm.c:229-242 | whatever comes before the first prefix, the header examined is the four bytes from it on: no byte from it is lost |
| CdcParser.FrameArrives | apps/factory/app_factory_cdc_comm.c:27-45 | garbage without a prefix, then a reply frame whose header passes: the checksum is right, the message is delivered or refused for its command, and parsing goes on behind it |
| CdcParser.AllArrive | apps/factory/app_factory_cdc_comm.c:211-257 | all messages of a stream of frames with garbage between arrive in order and no byte is left over |
| CdcParser.AcceptedLengths | apps/factory/app_factory_cdc_comm.c:56-88 | the payload lengths accepted for each type |
| CdcParser.SystemCommands | apps/factory/app_factory_cdc_comm.c:90-150 | a system packet goes through exactly with one of the five commands and its parameters; otherwise the parser stops with the right error |
| CdcParser.AnswerTells | apps/factory/app_factory_cdc_comm.c:90-150 | a system command is answered once, under its own type and number, with the boot mode exactly if that was asked for |
| CdcParser.ChangedByteIsNoticed | apps/factory/app_factory_cdc_comm.c:160-164 | one changed byte behind the header fails the checksum |
| PatternPlayer.Player.Output | apps/factory/app_factory_audio.cpp:135-181 | every request continues the circle where the last one ended; bytes beyond the request are untouched |
| PatternPlayer.Player.OutputLong | apps/factory/app_factory_audio.cpp:140-163 | the copy loop ends, by remaining size and then position |
| PatternPlayer.CycleIsPeriodic | apps/factory/app_factory_audio.cpp:135-181 | byte k of the playing is byte k of the pattern modulo its length |
| PatternPlayer.RequestsDoNotMatter | apps/factory/app_factory_audio.cpp:135-181 | over any sequence of requests the bytes are the cyclic repetition of the pattern |
| SpecTimer.Timer.Start | apps/common/app_spec_ostimer.cpp:32-48 | starts the first time of the interval |
| SpecTimer.Timer.Handler | apps/common/app_spec_ostimer.cpp:62-79 | starts the next time, or calls the user once and starts a periodic interval again |
| SpecTimer.ChunksAddUp | apps/common/app_spec_ostimer.cpp:62-79 | the 16-bit times add up to the interval |
| SpecTimer.OneShot | apps/common/app_spec_ostimer.cpp:32-79 | a one-shot interval starts exactly its times, keeps running, and calls once, after the last |
| SpecTimer.PeriodicRuns | apps/common/app_spec_ostimer.cpp:32-79 | after any number of rounds there was one call for each and the completed times add up to as many intervals |
| SpecTimer.CallsOncePerRound | apps/common/app_spec_ostimer.cpp:62-79 | no call falls between the ends of two rounds |

## Left out

- AacFraming.AacQueue.StoreCaching: packets are shorter than 65536 bytes, as the length has two bytes; longer ones are not modelled.
- AacFraming.AacQueue.StorePlaying: one attempt of the loop that waits for room; the waiting and its time limit are not modelled.
- AacFraming.AacQueue.Load: the reset of the queue after a bad header is not modelled, nor are the counts after it.
- LhdcAssembler.Assembler.Take: requires that the packet does not overrun the buffer (see OverrunsExactly); both header bytes must be present.
- LhdcAssembler.Assembler.TakeFirst: requires that a whole payload fits the buffer, as the source copies it unchecked.
- LhdcLoader.Load: the length behind a tag must leave room for the header in 32 bits (see TestIsRight); the two codec conditions are one parameter.
- DecodeSlots.Slots.MainRound: the decode window must lie inside the output memory (see WindowFits); packet counts per slot are not modelled.
- DecodeSlots.Slots.Process: the subtraction of the slot's packet count from the total is not modelled.
- DecodeSlotsProtocol.RunKeepsInv: under the condition that no call carries output over, without which it is false (CarryOverwritesUndrained).
- DecodeSlotsProtocol.RunKeepsOwned: a call whose window would run past the output memory is not taken.
- AacFraming.CpLoad: the packet count per slot and the reset flag after a bad header are not modelled.
- ScoHandoff.Bridge.Process: the wait for the co-processor and its time limit are a precondition; closing the bridge is not modelled.
- MsbcFraming.ParseHeader: without the compile-time options for unsynchronised streams, padding and trailing bytes.
- AudioList.AudioList.AppendStatus: the list is a sequence of values, not linked nodes; the pool is private to the list.
- VoiceDetector.Detector.Run: the mode that runs until the queue is empty, which the events use; the one-shot and endless modes and user callbacks are not modelled.
- CdcParser.Link.Receive: every error starts over; bytes discarded by the transport on an error and the final give-up are not modelled.
- PatternPlayer.Player.Output: requests and patterns are whole 16-bit samples and the pattern is not empty.
- Clearing only the prompts of the audio list, which walks on from a removed node.
- SBC and LDAC loaders, which hand out positions or depend on the codec's state.
- Other queue operations (front insertion, dump, partial reads) and the ring reset of error recovery.
- Mono to stereo expansion and the plain audio buffer get, which do not keep the obvious property.
- Locks, interrupts, timers and tracing, except as steps of the machines; balanced locking is not claimed.
- Floating-point code: balance, level estimates, resampling ratios.
- Boot, key maps, lights, pairing, battery and clock selection.
