# ST 2110 receive paths

A model of an ST 2110 receiver with proofs of what its two receive paths promise:
the path over a plain socket, from datagram to picture, and the path over a worker
process, from shared-memory slot to delivered frame, with the processes around it.

## What is modelled

**Socket path.** A datagram is parsed (`PacketParse`), stored, merged across two
legs, put in order with wrapping sequence numbers (`ReorderBuffer`), drained under
one of four gap policies (`Downstream`), grouped into units (`Depacketizing`,
`UnitGrouping`), assembled with byte-level coverage (`FrameAssembly`) and woven from
fields into frames (`Reconstruction`, `VideoPipeline`). The wrapping buffer refines
one over unbounded integers (`ReorderReference`); repeats and the merge history do
not show (`OrderedDelivery`); a stream is delivered completely exactly when the gap
policy stays patient (`CompleteDelivery`, `LossyDelivery`); and pictures arrive as they
were sent (`PictureDelivery`, `EndToEnd`, with one transmission in full in
`SmallTransmission`). `FieldPairing` says what is woven when fields are lost.

**Worker path.** The media ring is a concurrent system of a writer, a reader, slots
and a queue of events, one load or store per step (`RingSlots`, `RingProtocol`).
Its layout arithmetic is in `RingLayout`, the packing and unpacking of planes in
`PlanePacking`; `FrameDelivery` joins the protocol and the packing. Control messages
are encoded by shape (`WireFormat`, `ControlMessages`) and framed on a stream socket
that splits and interrupts calls as it likes (`Framing`). `WorkerManager` interleaves
the two locked sections of an acquisition with everything else; `GraphClient` follows
a shared client and its two proxies through every failure exit.

**Presentation.** `RtpTimestamps` unwraps timestamps and converts them exactly;
`SynchronizedPlayout` interleaves arrivals, the playout thread, start and stop.

Code that changes state is a class whose methods are proved against functions on
values; the theorems are about those functions and about runs of them. `Basics`,
`Arithmetic`, `CheckedArithmetic`, `BigEndian` and `Packets` are shared ground.

## What the proofs found

- The rejection at the end of a push, after a recovery jump, is never taken
  (`ReorderBuffer.RecoveryAlwaysFits`).
- Complete delivery by the receive loop holds for a lossless stream exactly when the
  gap policy never gives up on a number that is still to come
  (`LossyDelivery.DeliveredIffPatient`). Waiting guarantees that
  (`CompleteDelivery.WaitingIsPatient`); under each other policy, at its most eager,
  two swapped packets lose one (`LossyDelivery.SwapLoses`).
- A marker packet of payload type 64 to 95 looks like RTCP and is dropped, so media
  with such a payload type lose the end of every frame; nothing else well formed is
  lost at the entrance (`EndToEnd.AdmittedExactly`, shown at a packet in
  `SmallTransmission.MarkerRefused`).
- Fields of different pictures are woven together when a first field is lost and another
  one is received just before or any time after: only segments are guarded by their
  timestamp (`FieldPairing.MixedExactly`, `FieldPairing.LostFieldWeaves`).
- A request to start sessions without any medium can be encoded but is refused when
  decoded, the only message of which that is true (`ControlMessages.RequestRoundTrip`,
  `ControlMessages.StartOfNothing`).
- Releasing a graph sends no Shutdown request to a worker it retires: the function
  returns before it would (`WorkerManager.MtlWorkerManager.ReleaseGraph`).
- A statistics query that fails while running clears the count although proxies are
  started (`GraphClient.CallKeepsGraph`, shown at a run in `GraphClient.SilentQuery`), so
  the graph must be destroyed then, as its owner does (`GraphClient.RunOfGraph`).
- A slot is lost for good when its event cannot be written or comes to an inactive
  handler, and only then (`RingProtocol.LeaksExactly`, `RingProtocol.LeakedForGood`,
  shown at two runs in `RingProtocol.FailedWriteLeaks` and
  `RingProtocol.LateEventLeaks`); no other frame is lost once published
  (`FrameDelivery.FramesDelivered`).
- The last segmented picture never comes out of the pipeline by itself: no marker ends
  its second segment (`PictureDelivery.PipelineDelivers`).
- The failure exits of the video export after the copy are never taken
  (`PlanePacking.ExportVideoFrame`).
- A stop and a start of the sink clear its queues but not its timestamp mappers.

## Model

| member | source | states |
|---|---|---|
| ReorderBuffer.ConservationFromReset | libs/st2110core/include/st2110/receive/shared/fixed_reorder_buffer.hpp:88-149 | over every run since a reset the head has moved by exactly popped + given up; pushed = stored + duplicates + late; stored = popped + buffered + evicted |
| ReorderBuffer.Conservation | libs/st2110core/include/st2110/receive/shared/fixed_reorder_buffer.hpp:277-322 | the same three balances between any two moments of any run |
| ReorderBuffer.NearestRecoveryIsNearest | libs/st2110core/include/st2110/receive/shared/fixed_reorder_buffer.hpp:213-275 | the recovery search returns the recovering number nearest to the head, and none only when there is none; ties cannot occur |
| ReorderBuffer.PlaceAfterJump | libs/st2110core/include/st2110/receive/shared/fixed_reorder_buffer.hpp:374-423 | a number beyond the window always ends up stored, inside the window of the head after the jump |
| ReorderBuffer.RecoveryAlwaysFits | libs/st2110core/include/st2110/receive/shared/fixed_reorder_buffer.hpp:402-411 | after a recovery the number is within the window for every window size, so the last rejection of a push is dead code |
| ReorderBuffer.FixedWindowReorderBuffer.PushPacket | libs/st2110core/include/st2110/receive/shared/fixed_reorder_buffer.hpp:324-423 | the state and the verdict of a push, audio and video with their different limits for late |
| ReorderBuffer.FixedWindowReorderBuffer.Pop | libs/st2110core/include/st2110/receive/shared/fixed_reorder_buffer.hpp:88-117 | a pop hands over the packet at the head and moves it by one |
| ReorderBuffer.FixedWindowReorderBuffer.FlushOnce | libs/st2110core/include/st2110/receive/shared/fixed_reorder_buffer.hpp:130-149 | one missing number is given up exactly when it is missing and something waits behind it |
| ReorderBuffer.FixedWindowReorderBuffer.FlushAfterN | libs/st2110core/include/st2110/receive/shared/fixed_reorder_buffer.hpp:151-174 | the flush happens only from max(1, n) buffered packets on |
| ReorderBuffer.FixedWindowReorderBuffer.FlushMarker | libs/st2110core/include/st2110/receive/shared/fixed_reorder_buffer.hpp:176-190 | the flush happens only with a marker packet buffered |
| ReorderBuffer.FixedWindowReorderBuffer.FindRecoveryExpected | libs/st2110core/include/st2110/receive/shared/fixed_reorder_buffer.hpp:213-275 | the scan over the keys, in any order, finds the nearest recovering number |
| ReorderBuffer.FixedWindowReorderBuffer.EraseOutsideWindow | libs/st2110core/include/st2110/receive/shared/fixed_reorder_buffer.hpp:277-302 | the scan keeps exactly the packets within the window of the head |
| ReorderBuffer.FixedWindowReorderBuffer.Reset | libs/st2110core/include/st2110/receive/shared/fixed_reorder_buffer.hpp:119-126 | back to a fresh buffer of the same window |
| ReorderReference.RunRefinesFromReset | libs/st2110core/include/st2110/receive/shared/fixed_reorder_buffer.hpp:72-423 | over every run whose arrivals stay within half range of the head, the wrapping buffer accepts, pops and flushes exactly as a buffer over unbounded integers |
| ReorderReference.RunRefines | libs/st2110core/include/st2110/receive/shared/fixed_reorder_buffer.hpp:72-423 | the same from any pair of related states |
| ReorderReference.PushRefines | libs/st2110core/include/st2110/receive/shared/fixed_reorder_buffer.hpp:324-423 | one push of a number within half range, in order, duplicate, late or forcing a jump, agrees with unbounded integers |
| ReorderReference.PopRefines | libs/st2110core/include/st2110/receive/shared/fixed_reorder_buffer.hpp:88-117 | one pop agrees with unbounded integers |
| ReorderReference.FlushRefines | libs/st2110core/include/st2110/receive/shared/fixed_reorder_buffer.hpp:130-149 | one flush agrees with unbounded integers |
| ReorderReference.GuardedFlushesRefine | libs/st2110core/include/st2110/receive/shared/fixed_reorder_buffer.hpp:151-190 | the flush after n packets and the flush at a marker decide alike on both |
| ReorderReference.JumpKeeps | libs/st2110core/include/st2110/receive/shared/fixed_reorder_buffer.hpp:277-302 | in a jump a buffered packet survives if and only if it can share a window with the new one, and keeps its true number |
| ReorderReference.PopsIncrease | libs/st2110core/include/st2110/receive/shared/fixed_reorder_buffer.hpp:88-117 | over every run the true numbers of the popped packets strictly increase |
| Downstream.TurnProgress | libs/st2110core/include/st2110/backends/socket/socket_rx_single_media_backend_base.hpp:303-347 | the drain terminates: each turn removes a packet or brings the head nearer to the nearest buffered one |
| Downstream.DrainReachesPolicy | libs/st2110core/include/st2110/backends/socket/socket_rx_single_media_backend_base.hpp:303-347 | after a drain the expected number is absent, fewer than max(1, n) packets or no marker packet are left as the policy says, waiting skips nothing and a single flush at most one number |
| Downstream.DrainInOrder | libs/st2110core/include/st2110/backends/socket/socket_rx_single_media_backend_base.hpp:320-347 | a drain hands packets over nearest first, keeps all farther ones, and loses none between |
| Downstream.TrimKeepsLast | libs/st2110core/include/st2110/backends/socket/socket_rx_single_media_backend_base.hpp:33-41 | trimming keeps exactly the last numbers of the history, list and set in agreement |
| Downstream.RememberKeepsValid | libs/st2110core/include/st2110/backends/socket/socket_rx_single_media_backend_base.hpp:33-41 | remembering keeps the set equal to the list, its entries distinct and within capacity |
| Downstream.DuplicateMergeHistory.RememberSequence | libs/st2110core/include/st2110/backends/socket/socket_rx_single_media_backend_base.hpp:33-41 | the history updated in place is the specified one |
| Downstream.DuplicateMergeHistory.Contains | libs/st2110core/include/st2110/backends/socket/socket_rx_single_media_backend_base.hpp:31 | asking the set answers whether the number is one of the remembered list |
| Downstream.SocketRxBackend.ApplyReorderBufferPolicy | libs/st2110core/include/st2110/backends/socket/socket_rx_single_media_backend_base.hpp:303-319 | one application of the gap policy to the buffer |
| Downstream.SocketRxBackend.DrainToSink | libs/st2110core/include/st2110/backends/socket/socket_rx_single_media_backend_base.hpp:320-347 | the loop over pops and flushes performs the specified drain |
| Downstream.SocketRxBackend.ProcessStoredPacket | libs/st2110core/include/st2110/backends/socket/socket_rx_single_media_backend_base.hpp:382-399 | merge, push and drain of one stored packet |
| Downstream.ProcessKeepsValid | libs/st2110core/include/st2110/backends/socket/socket_rx_single_media_backend_base.hpp:382-399 | one packet keeps the buffer and the history sound |
| OrderedDelivery.DrainRefines | libs/st2110core/include/st2110/backends/socket/socket_rx_single_media_backend_base.hpp:320-347 | a drain of the wrapping buffer hands over what a drain over unbounded integers does |
| OrderedDelivery.RefDrainForward | libs/st2110core/include/st2110/backends/socket/socket_rx_single_media_backend_base.hpp:320-347 | a drain only moves forward: everything handed over was at or beyond the head and is behind it afterwards |
| OrderedDelivery.RefIgnoresRepeats | libs/st2110core/include/st2110/backends/socket/socket_rx_single_media_backend_base.hpp:382-399 | over unbounded integers repeats change nothing at all |
| OrderedDelivery.ReceiveRefines | libs/st2110core/include/st2110/backends/socket/socket_rx_single_media_backend_base.hpp:382-410 | the downstream loop, with or without merging, delivers what the reference delivers, and the history holds the last distinct numbers |
| OrderedDelivery.DuplicateTransparency | libs/st2110core/include/st2110/backends/socket/socket_rx_single_media_backend_base.hpp:382-399 | for any interleaving of two legs, removing every repeat and switching the merge history on or off leave the delivered stream unchanged |
| CompleteDelivery.PatientRun | libs/st2110core/include/st2110/backends/socket/socket_rx_single_media_backend_base.hpp:303-399 | while the gap policy never gives up, the stream is delivered in order up to the lowest missing number |
| CompleteDelivery.RefDeliveredIffPatient | libs/st2110core/include/st2110/backends/socket/socket_rx_single_media_backend_base.hpp:303-399 | over unbounded integers a stream of which nothing is lost is delivered completely and in order if and only if the gap policy never gives up |
| CompleteDelivery.WaitingIsPatient | libs/st2110core/include/st2110/backends/socket/socket_rx_single_media_backend_base.hpp:303-319 | waiting for missing packets never gives up |
| CompleteDelivery.PatientNoFullTurn | libs/st2110core/include/st2110/backends/socket/socket_rx_single_media_backend_base.hpp:27-47 | in a patient run no number that arrives is a full turn away from one the merge history still holds, for every window up to a quarter of the number range |
| CompleteDelivery.StreamDelivered | libs/st2110core/include/st2110/backends/socket/socket_rx_single_media_backend_base.hpp:382-399 | while the gap policy is patient, position i of what the wrapping loop hands over is the first arrival of number base + i, merging or not |
| LossyDelivery.DeliveredIffPatient | libs/st2110core/include/st2110/backends/socket/socket_rx_single_media_backend_base.hpp:303-399 | the wrapping loop, merging or not, hands over a stream of which nothing is lost completely and in order if and only if the gap policy never gives up, a condition on the arrivals alone |
| LossyDelivery.ImpatientRunLoses | libs/st2110core/include/st2110/backends/socket/socket_rx_single_media_backend_base.hpp:303-319 | as soon as the policy gives up on a number, the position of that number in what the wrapping loop hands over is never filled with it, however the run goes on |
| LossyDelivery.SwapLoses | libs/st2110core/include/st2110/backends/socket/socket_rx_single_media_backend_base.hpp:303-319 | two swapped packets are enough: only waiting delivers them, the other three policies at their most eager do not |
| PacketParse.ParseYieldsWellFormed | libs/st2110core/include/st2110/ingress/shared/packet_parse.hpp:32-87 | whatever the parser accepts is well formed: rows ordered, lengths adding up, segments being slices of the payload |
| PacketParse.WriteThenParse | libs/st2110core/include/st2110/ingress/shared/packet_parse.hpp:32-95 | every well-formed packet is read back from the datagram that spells it, for any padding, extension and contributing sources |
| PacketParse.StoreThenView | libs/st2110core/include/st2110/receive/shared/fixed_reorder_buffer.hpp:13-47 | viewing a stored packet gives back the view that was stored |
| PacketParse.SegmentsJoin | libs/st2110core/include/st2110/ingress/shared/packet_parse.hpp:77-87 | the segments joined are the front of the payload |
| PacketParse.JoinSegments | libs/st2110core/include/st2110/receive/shared/fixed_reorder_buffer.hpp:17-47 | joined segments cut along their own headers come apart into the same segments |
| PacketParse.ParseSt211020PayloadHeader | libs/st2110core/include/st2110/ingress/shared/st2110_20.hpp:32-76 | the header loop reads up to the first header without continuation, as section 4.2 of RFC 4175 lays them out |
| PacketParse.ValidateSrdOrdering | libs/st2110core/include/st2110/ingress/shared/st2110_20.hpp:78-90 | accepts exactly the ordered row headers |
| PacketParse.ValidatePayloadHeader | libs/st2110core/include/st2110/ingress/shared/st2110_20.hpp:92-123 | accepts exactly the valid row headers |
| PacketParse.CutPayload | libs/st2110core/include/st2110/ingress/shared/packet_parse.hpp:58-87 | the two loops cut the payload into consecutive slices and keep the rest |
| PacketParse.ParsePacketView | libs/st2110core/include/st2110/ingress/shared/packet_parse.hpp:32-95 | the whole parse, with the error of the first check that fails |
| PacketParse.ViewPacket | libs/st2110core/include/st2110/receive/shared/fixed_reorder_buffer.hpp:26-46 | the loop that rebuilds the view |
| VideoFrames.LayoutContiguous | libs/st2110core/include/st2110/delivery/video/video_frame.hpp:125-270 | for every format that can be laid out the planes follow one another without gaps or row padding |
| VideoFrames.AddressInjective | libs/st2110core/include/st2110/delivery/video/video_frame.hpp:86-95 | no two bytes of rows share an address, and all lie in the buffer |
| VideoFrames.AddressOnto | libs/st2110core/include/st2110/delivery/video/video_frame.hpp:31-40 | every byte of the buffer is a byte of a row: the size is exact |
| VideoFrames.SamePicture | libs/st2110core/include/st2110/delivery/video/video_frame.hpp:29-40 | frames that agree row by row are equal |
| VideoFrames.CopyRow | libs/st2110core/include/st2110/delivery/video/video_frame.hpp:86-95 | a copied row changes its own bytes and nothing else |
| FrameAssembly.MarkValid | libs/st2110core/include/st2110/receive/video/frame_write_coverage.hpp:44-55 | marking keeps every count equal to the number of bytes marked |
| FrameAssembly.CompleteIffCovered | libs/st2110core/include/st2110/receive/video/frame_write_coverage.hpp:24-60 | after any writes the unit is complete if and only if every byte of every row of every plane was covered |
| FrameAssembly.SlicesRebuild | libs/st2110core/include/st2110/receive/video/frame_assembler.hpp:44-82 | writes that are slices of one frame and cover it rebuild it, whatever the order, overlap or repetition |
| FrameAssembly.FrameWriteCoverage.ResetFrom | libs/st2110core/include/st2110/receive/video/frame_write_coverage.hpp:24-42 | nothing marked, expected counts from the layout |
| FrameAssembly.FrameWriteCoverage.MarkWritten | libs/st2110core/include/st2110/receive/video/frame_write_coverage.hpp:44-55 | the loop marks the range and counts each byte once |
| FrameAssembly.FrameAssembler.BeginUnit | libs/st2110core/include/st2110/receive/video/frame_assembler.hpp:44-48 | a fresh unit |
| FrameAssembly.FrameAssembler.Write | libs/st2110core/include/st2110/receive/video/frame_assembler.hpp:50-56 | the bytes copied and marked |
| FrameAssembly.FrameAssembler.End | libs/st2110core/include/st2110/receive/video/frame_assembler.hpp:58-82 | the unit, complete exactly when covered, dropped unless it may be emitted |
| Depacketizing.Depacketizer.PushPacket | libs/st2110core/include/st2110/receive/video/depacketizer.hpp:40-73 | the new state and the emitted units of a push |
| Depacketizing.Depacketizer.OpenUnitFor | libs/st2110core/include/st2110/receive/video/depacketizer.hpp:49-63 | a unit with the key of the packet is open afterwards, another one ended |
| Depacketizing.Depacketizer.EndCurrentUnit | libs/st2110core/include/st2110/receive/video/depacketizer.hpp:86-89 | the unit judged by the partial policy and counted as ok, partial or dropped |
| Depacketizing.Depacketizer.WritePacketSegments | libs/st2110core/include/st2110/receive/video/depacketizer.hpp:233-243 | all segments written in order at their mapped places |
| UnitGrouping.GroupsSplit | libs/st2110core/include/st2110/receive/video/depacketizer.hpp:40-73 | the greedy grouping cuts before each change of key and after each ending marker, and only there |
| UnitGrouping.SplitUnique | libs/st2110core/include/st2110/receive/video/depacketizer.hpp:40-73 | there is no other such split |
| UnitGrouping.UnitsAreGroups | libs/st2110core/include/st2110/receive/video/depacketizer.hpp:40-73 | over any packet stream the ended units are those of the ended groups in order, the open unit is the last group, and ok + partial + dropped counts them |
| UnitGrouping.AtMostTwo | libs/st2110core/include/st2110/receive/video/depacketizer.hpp:40-73 | a push uses its packet and ends at most two units |
| Reconstruction.FieldLayouts | libs/st2110core/include/st2110/receive/video/depacketizer.hpp:91-102 | the two fields of any picture have its even and its odd rows in every plane |
| Reconstruction.WovenAt | libs/st2110core/include/st2110/receive/video/video_unit_reconstructor.hpp:89-99 | even rows come from the first field, odd rows from the second |
| Reconstruction.WeaveFields | libs/st2110core/include/st2110/receive/video/video_unit_reconstructor.hpp:89-99 | weaving is the inverse of splitting into fields: the result is the picture if and only if the parts are its fields |
| Reconstruction.VideoUnitReconstructor.CopySubUnitRows | libs/st2110core/include/st2110/receive/video/video_unit_reconstructor.hpp:89-99 | the nested loops move every row of a field to its place and touch no other |
| Reconstruction.VideoUnitReconstructor.Weave | libs/st2110core/include/st2110/receive/video/video_unit_reconstructor.hpp:46-56 | two fields give the woven picture |
| Reconstruction.VideoUnitReconstructor.JoinPair | libs/st2110core/include/st2110/receive/video/video_unit_reconstructor.hpp:46-57 | a pair is joined as soon as both halves are there, and cleared |
| Reconstruction.VideoUnitReconstructor.Push | libs/st2110core/include/st2110/receive/video/video_unit_reconstructor.hpp:32-87 | frames pass, fields pair by index, segments only with the same timestamp |
| VideoPipeline.VideoReceivePipeline.Push | libs/st2110core/include/st2110/receive/video/video_receive_pipeline.hpp:17-28 | one push through both stages |
| VideoPipeline.PushUnitsConcat | libs/st2110core/include/st2110/receive/video/video_receive_pipeline.hpp:17-28 | feeding units in batches is feeding them one by one |
| VideoPipeline.PipeIsTwoStages | libs/st2110core/include/st2110/receive/video/video_receive_pipeline.hpp:17-28 | over any stream the pipeline is the reconstructor after the depacketizer |
| FieldPairing.SegmentsShareTimestamp | libs/st2110core/include/st2110/receive/video/video_unit_reconstructor.hpp:58-81 | a segment is joined exactly with a waiting half of the same timestamp, and a half of another timestamp is forgotten |
| FieldPairing.FieldsJoinAnyway | libs/st2110core/include/st2110/receive/video/video_unit_reconstructor.hpp:39-57 | a field is joined with whatever other half waits, whatever its timestamp |
| FieldPairing.FieldsPairUp | libs/st2110core/include/st2110/receive/video/video_unit_reconstructor.hpp:32-87 | over any stream of fields the frames are those of the pairing of neighbouring opposite halves, in order |
| FieldPairing.MixedExactly | libs/st2110core/include/st2110/receive/video/video_unit_reconstructor.hpp:39-57 | of fields that arrive in order with some lost, two of different pictures are woven if and only if a second field arrives without its own first field and another first field waits for it or comes later |
| FieldPairing.LostFieldMixes | libs/st2110core/include/st2110/receive/video/video_unit_reconstructor.hpp:39-57 | one lost first field mixes pictures, one lost second field does not |
| FieldPairing.LostFieldWeaves | libs/st2110core/include/st2110/receive/video/video_unit_reconstructor.hpp:39-57 | on units: after one lost first field the next picture that comes out has its even rows from one picture and its odd rows from another |
| PictureDelivery.PipelineDelivers | libs/st2110core/include/st2110/receive/video/video_receive_pipeline.hpp:12-36 | pictures, fields or segments cut into packets in any way that covers them, frames and fields marked at their ends, come out of the pipeline complete, in order and unchanged; of segmented pictures all but the last, whose first segment waits while its second is open |
| PictureDelivery.PartRebuilt | libs/st2110core/include/st2110/receive/video/depacketizer.hpp:40-73 | the unit of one marked group that covers a picture is that picture, complete |
| EndToEnd.ProcessReceivedDatagram | libs/st2110core/include/st2110/backends/socket/socket_rx_single_media_backend_base.hpp:349-380 | the four outcomes of a datagram: control, rejected, not this media, stored |
| EndToEnd.AdmittedExactly | libs/st2110core/include/st2110/backends/socket/socket_rx_single_media_backend_base.hpp:285-301 | the datagram of a well-formed packet is admitted if and only if it fits, has the payload type, and is not a marker packet of payload type 64 to 95, which is taken for RTCP |
| EndToEnd.StreamHandedOn | libs/st2110core/include/st2110/backends/socket/socket_rx_single_media_backend_base.hpp:349-399 | a stream that arrives in any order with repeats is handed on packet for packet, stamped with the time of its first copies, merging or not |
| EndToEnd.PicturesArrive | libs/st2110core/include/st2110/backends/socket/socket_rx_single_media_backend_base.hpp:349-410 | end to end, in all three scan modes: the sink gets exactly the pictures that were sent, of segmented ones all but the last, in order, all complete, with the timestamps of their first packets, merging or not |
| SmallTransmission.MarkerRefused | libs/st2110core/include/st2110/backends/socket/socket_rx_single_media_backend_base.hpp:285-301 | a well-formed last packet of a picture is dropped as control traffic for each payload type 64 to 95 and stored for 96 |
| SmallTransmission.PictureArrives | libs/st2110core/include/st2110/backends/socket/socket_rx_single_media_backend_base.hpp:349-410 | a picture in two packets, one of them received twice, meets every condition of the end-to-end statement and is shown, under every policy |
| RingSlots.ValidateSlotMediaMetadata | libs/st2110core/src/backends/mtl/mtl_worker_shared_memory_ring.cpp:87-141 | accepts exactly a nonempty payload within capacity whose planes are nonempty and lie inside it, with the fields of its medium set |
| RingSlots.RingMap.InitializeSlotHeaders | libs/st2110core/src/backends/mtl/mtl_worker_shared_memory_ring.cpp:343-366 | every slot empty with a zero header |
| RingSlots.RingMap.BeginWriteSlot | libs/st2110core/src/backends/mtl/mtl_worker_shared_memory_ring.cpp:406-418 | an empty slot and only an empty slot is claimed |
| RingSlots.RingMap.AcquireSlot | apps/st2110_mtl_rx_worker/mtl_video_rx_session.cpp:201-227 | the circular scan claims an empty slot whenever there is one and moves the next index past it |
| RingSlots.RingMap.PublishWrittenSlot | libs/st2110core/src/backends/mtl/mtl_worker_shared_memory_ring.cpp:420-456 | the header and the ready state, or the error that leaves the slot alone |
| RingSlots.RingMap.AbortWriteSlot | libs/st2110core/src/backends/mtl/mtl_worker_shared_memory_ring.cpp:458-481 | a slot being written goes back to empty |
| RingSlots.RingMap.BeginReadSlotIfMatches | libs/st2110core/src/backends/mtl/mtl_worker_shared_memory_ring.cpp:497-542 | not ready, stale, acquired or invalid, and what happens to the slot in each case |
| RingSlots.RingMap.ReleaseReadSlot | libs/st2110core/src/backends/mtl/mtl_worker_shared_memory_ring.cpp:544-567 | a slot being read goes back to empty |
| RingProtocol.WriterKeepsInv | apps/st2110_mtl_rx_worker/mtl_video_rx_session.cpp:355-423 | every single load and store of the writer keeps the protocol invariant |
| RingProtocol.ReaderKeepsInv | libs/st2110core/src/backends/mtl/mtl_worker_graph_client.cpp:662-695 | every single load and store of the reader keeps it |
| RingProtocol.RunKeepsInv | libs/st2110core/src/backends/mtl/mtl_worker_graph_client.cpp:1075-1107 | the invariant over every interleaving |
| RingProtocol.HeldSlotUntouched | libs/st2110core/src/backends/mtl/mtl_worker_shared_memory_ring.cpp:406-456 | while the reader holds a slot no step of the writer changes its header or payload |
| RingProtocol.WrittenSlotUntouched | libs/st2110core/src/backends/mtl/mtl_worker_shared_memory_ring.cpp:497-567 | while the writer fills a slot no step of the reader changes it |
| RingProtocol.DeliveriesExact | libs/st2110core/src/backends/mtl/mtl_worker_graph_client.cpp:662-695 | every delivery is byte for byte a frame the worker received, the one published under that sequence number, and sequence numbers increase |
| RingProtocol.EveryEventCounts | libs/st2110core/src/backends/mtl/mtl_worker_graph_client.cpp:1075-1141 | no event is stale, early or refused and every release finds its slot being read; received = announced + dropped + in hand; announced = queued + released + discarded + in hand |
| RingProtocol.LeaksExactly | apps/st2110_mtl_rx_worker/mtl_video_rx_session.cpp:415-420 | slots leak exactly by failed event writes and by events to an inactive handler, one each; every other ready slot has exactly one outstanding event |
| RingProtocol.LeakedForGood | apps/st2110_mtl_rx_worker/mtl_video_rx_session.cpp:415-420 | over every run a slot that has leaked stays ready and untouched, whatever follows |
| RingProtocol.FailedWriteLeaks | apps/st2110_mtl_rx_worker/mtl_video_rx_session.cpp:415-420 | a run in which an event cannot be written: its slot is lost and the worker stops |
| RingProtocol.LateEventLeaks | libs/st2110core/src/backends/mtl/mtl_worker_graph_client.cpp:1075-1107 | a run in which an event comes to an inactive handler: its slot is lost and the worker goes on |
| RingProtocol.DrainedMeansEmpty | libs/st2110core/src/backends/mtl/mtl_worker_graph_client.cpp:1075-1107 | with the queue drained and both ends idle, every slot that has not leaked is empty |
| RingProtocol.PublishIsItsSteps | libs/st2110core/src/backends/mtl/mtl_worker_shared_memory_ring.cpp:420-456 | the single stores of a publication, uninterrupted, are the whole operation |
| RingProtocol.BeginReadIsItsSteps | libs/st2110core/src/backends/mtl/mtl_worker_shared_memory_ring.cpp:497-542 | the single steps of an acquisition, uninterrupted, are the whole operation |
| RingProtocol.ReleaseIsItsSteps | libs/st2110core/src/backends/mtl/mtl_worker_shared_memory_ring.cpp:544-567 | so are the test and the store of a release |
| RingProtocol.AbortIsItsSteps | libs/st2110core/src/backends/mtl/mtl_worker_shared_memory_ring.cpp:458-481 | and those of an abort |
| RingLayout.ValidateDescriptor | libs/st2110core/src/backends/mtl/mtl_worker_ipc_codec.cpp:368-415 | accepts exactly the descriptors whose payloads lie in the mapping, with every overflow caught |
| RingLayout.ValidateForMapping | libs/st2110core/src/backends/mtl/mtl_worker_shared_memory_ring.cpp:145-202 | accepts exactly those that are also aligned and leave room for the header |
| RingLayout.SlotsAddressed | libs/st2110core/src/backends/mtl/mtl_worker_shared_memory_ring.cpp:278-331 | for every accepted descriptor the header and the payload of every slot are found, aligned and inside the mapping, and no sum or product overflows |
| RingLayout.SlotsDisjoint | libs/st2110core/src/backends/mtl/mtl_worker_shared_memory_ring.cpp:278-331 | no two slots share a byte |
| RingLayout.OwnerDescriptorsValid | libs/st2110core/src/backends/mtl/mtl_worker_shared_memory_ring_owner.cpp:100-153 | a descriptor is made if and only if the whole ring fits in 64 bits, and then passes both validators and describes the ring asked for |
| CheckedArithmetic.MulU64Exactly | libs/st2110core/src/backends/mtl/mtl_worker_shared_memory_ring_owner.cpp:54-60 | the division test catches exactly the products that do not fit in 64 bits |
| PlanePacking.FieldFlagsRoundTrip | libs/st2110core/src/backends/mtl/mtl_worker_graph_client.cpp:518-542 | the reader accepts exactly the flags some source frame gives, and reads the field back from them |
| PlanePacking.CopyPlanesToPayload | apps/st2110_mtl_rx_worker/mtl_video_rx_session.cpp:252-353 | accepts exactly the frames of the configuration with all rows readable that fit, packs them without gaps and leaves the bytes behind them alone |
| PlanePacking.ExportVideoFrame | apps/st2110_mtl_rx_worker/mtl_video_rx_session.cpp:355-423 | a frame is written if and only if it is accepted and a slot is empty; otherwise the slot goes back, no sequence number is used, and the result tells a full ring, a refused frame and a ring without slots apart; once packed, publishing cannot fail |
| PlanePacking.DeliverVideoFrame | libs/st2110core/src/backends/mtl/mtl_worker_graph_client.cpp:749-911 | delivers exactly the slots that pass every check, and the frame is what the metadata points at |
| PlanePacking.CheckPlane | libs/st2110core/src/backends/mtl/mtl_worker_graph_client.cpp:815-883 | the overflow-checked tests of a plane say exactly that its rows lie inside its part of the payload |
| PlanePacking.PackedIsReadable | libs/st2110core/src/backends/mtl/mtl_worker_graph_client.cpp:69-77 | what the worker packs fills the capacity the client computed, passes the ring check and every check of the client |
| PlanePacking.FrameArrives | libs/st2110core/src/backends/mtl/mtl_worker_graph_client.cpp:885-906 | the delivered frame has the active rows of the source in every plane, its timestamps, scan mode and field |
| FrameDelivery.FramesDelivered | libs/st2110core/src/backends/mtl/mtl_worker_graph_client.cpp:662-911 | from source frame to sink over every interleaving: each frame published is delivered, under way or in a leaked slot, and once all is drained delivered exactly unless its slot has leaked; nothing is passed over; each delivered frame shows the rows of the source frame it was packed from |
| FrameDelivery.NothingPassedOver | libs/st2110core/src/backends/mtl/mtl_worker_graph_client.cpp:749-911 | whenever the client has read a slot, every check on the frame passes |
| FrameDelivery.FrameGoesThrough | libs/st2110core/src/backends/mtl/mtl_worker_graph_client.cpp:662-911 | for every accepted frame there is a run that delivers it |
| WireFormat.DecodeIffEncoded | libs/st2110core/src/backends/mtl/mtl_worker_ipc_codec.cpp:34-159 | for every message shape, reading finds a value exactly when its encoding is there |
| WireFormat.PrefixFree | libs/st2110core/src/backends/mtl/mtl_worker_ipc_codec.cpp:34-159 | no encoding of a shape is a proper prefix of another |
| WireFormat.Writer.Put | libs/st2110core/src/backends/mtl/mtl_worker_ipc_codec.cpp:34-72 | the writer appends the encoding or fails on a text too long |
| WireFormat.Writer.PutU64 | libs/st2110core/src/backends/mtl/mtl_worker_ipc_codec.cpp:50-54 | the shift loop writes the most significant octet first |
| WireFormat.Writer.PutText | libs/st2110core/src/backends/mtl/mtl_worker_ipc_codec.cpp:56-64 | length prefix and bytes, refused from 2^32 bytes on |
| WireFormat.Reader.Get | libs/st2110core/src/backends/mtl/mtl_worker_ipc_codec.cpp:74-159 | the reader takes the value the bytes spell, or fails as the format says |
| WireFormat.Reader.GetU64 | libs/st2110core/src/backends/mtl/mtl_worker_ipc_codec.cpp:112-124 | the shift loop reads what the writer wrote |
| WireFormat.Reader.GetText | libs/st2110core/src/backends/mtl/mtl_worker_ipc_codec.cpp:126-139 | a text is read only when all of it is there |
| ControlMessages.ValidateDescriptors | libs/st2110core/src/backends/mtl/mtl_worker_ipc_codec.cpp:486-506 | accepts exactly bounded lists of valid descriptors without repeats |
| ControlMessages.ValidateStartRings | libs/st2110core/src/backends/mtl/mtl_worker_ipc_codec.cpp:520-535 | rings only for media that are started |
| ControlMessages.StartOfNothing | libs/st2110core/src/backends/mtl/mtl_worker_ipc_codec.cpp:1006-1274 | the request that starts nothing is encoded and then refused |
| ControlMessages.RequestRoundTrip | libs/st2110core/src/backends/mtl/mtl_worker_ipc_codec.cpp:1006-1274 | every request that can be encoded is decoded to itself, except that starting sessions with no medium at all is refused: exactly when |
| ControlMessages.AcceptedRequestBytes | libs/st2110core/src/backends/mtl/mtl_worker_ipc_codec.cpp:1082-1274 | every accepted request is encoded as the bytes it came in |
| ControlMessages.RequestsPrefixFree | libs/st2110core/src/backends/mtl/mtl_worker_ipc_codec.cpp:1082-1274 | two accepted strings never mean the same request, nor is one a proper prefix of the other |
| ControlMessages.EventRoundTrip | libs/st2110core/src/backends/mtl/mtl_worker_ipc_codec.cpp:1276-1880 | every event is decoded to itself |
| ControlMessages.AcceptedEventBytes | libs/st2110core/src/backends/mtl/mtl_worker_ipc_codec.cpp:1405-1880 | every accepted event is encoded as the bytes it came in |
| ControlMessages.EventsPrefixFree | libs/st2110core/src/backends/mtl/mtl_worker_ipc_codec.cpp:1405-1880 | two accepted strings never mean the same event, nor is one a proper prefix of the other |
| ControlMessages.SerializeRequest | libs/st2110core/src/backends/mtl/mtl_worker_ipc_codec.cpp:1006-1080 | the writer calls produce the specified bytes or error |
| ControlMessages.DeserializeRequest | libs/st2110core/src/backends/mtl/mtl_worker_ipc_codec.cpp:1082-1274 | the reader calls and validators produce the specified request or error |
| ControlMessages.SerializeEvent | libs/st2110core/src/backends/mtl/mtl_worker_ipc_codec.cpp:1276-1403 | the writer calls produce the specified bytes |
| ControlMessages.DeserializeEvent | libs/st2110core/src/backends/mtl/mtl_worker_ipc_codec.cpp:1405-1880 | the reader calls produce the specified event or error |
| Framing.FramesReadBack | libs/st2110core/src/backends/mtl/mtl_worker_ipc_framing.cpp:382-411 | from the concatenation of any frames successive reads return those frames in order, with their descriptors, and stop where they end |
| Framing.FrameReadBack | libs/st2110core/src/backends/mtl/mtl_worker_ipc_framing.cpp:382-411 | one frame, whatever follows it |
| Framing.WireAppend | libs/st2110core/src/backends/mtl/mtl_worker_ipc_framing.cpp:347-367 | writing frame after frame gives the concatenation |
| Framing.SendSocket.WriteFrame | libs/st2110core/src/backends/mtl/mtl_worker_ipc_framing.cpp:347-367 | however the sends split or are interrupted, the wire grows by a prefix of the frame, the whole of it exactly on success, descriptors on the first byte only; an invalid frame leaves no trace |
| Framing.SendSocket.SendWithDescriptors | libs/st2110core/src/backends/mtl/mtl_worker_ipc_framing.cpp:132-189 | the descriptors go out once, the rest follows without them |
| Framing.SendSocket.WriteRemaining | libs/st2110core/src/backends/mtl/mtl_worker_ipc_framing.cpp:91-114 | continues at the right byte of header or payload |
| Framing.SendSocket.WriteAll | libs/st2110core/src/backends/mtl/mtl_worker_ipc_framing.cpp:65-89 | all bytes once and in order, or a prefix and an error |
| Framing.ReceiveSocket.ReadFrame | libs/st2110core/src/backends/mtl/mtl_worker_ipc_framing.cpp:382-411 | takes exactly the next frame, for any splitting of the receives; succeeds if and only if there is one that fits, when the system does not fail; on error every received descriptor is closed |
| Framing.ReceiveSocket.ReadAll | libs/st2110core/src/backends/mtl/mtl_worker_ipc_framing.cpp:243-306 | fills the buffer from as many receives as it takes and never keeps more descriptors than allowed |
| Framing.KeptOrClosed | libs/st2110core/src/backends/mtl/mtl_worker_ipc_framing.cpp:191-241 | every received descriptor is kept or closed, and only one of the two |
| Framing.ReceiveSocket.AppendReceived | libs/st2110core/src/backends/mtl/mtl_worker_ipc_framing.cpp:191-241 | of the received descriptors those that fit and could each be marked close-on-exec are kept, the others closed; it is a system failure exactly when one that fits could not be marked |
| Framing.ReceiveSocket.ReadPayload | libs/st2110core/src/backends/mtl/mtl_worker_ipc_framing.cpp:369-380 | the same without descriptors |
| WorkerManager.ManagerSafety | libs/st2110core/src/backends/mtl/mtl_worker_manager.cpp:333-479 | however the locked sections interleave: no two live workers for one runtime, distinct ids, and every lease held is served until its process fails or is given up |
| WorkerManager.IdsNeverReused | libs/st2110core/src/backends/mtl/mtl_worker_manager.cpp:454-465 | from any reachable state on, a worker is one of those there now or has an id never given before |
| WorkerManager.LiveWorkersStay | libs/st2110core/src/backends/mtl/mtl_worker_manager.cpp:481-565 | acquiring or releasing for one graph never removes a live worker that another graph uses |
| WorkerManager.StepInv | libs/st2110core/src/backends/mtl/mtl_worker_manager.cpp:333-603 | every locked section keeps the invariant |
| WorkerManager.RunInv | libs/st2110core/src/backends/mtl/mtl_worker_manager.cpp:333-603 | the invariant over every interleaving |
| WorkerManager.MtlWorkerManager.CollectRetirable | libs/st2110core/src/backends/mtl/mtl_worker_manager.cpp:266-283 | retires exactly the workers that are broken, or idle for another runtime, and keeps the order of the rest |
| WorkerManager.MtlWorkerManager.JoinWorker | libs/st2110core/src/backends/mtl/mtl_worker_manager.cpp:360-368 | the first live worker of the runtime takes the graph on |
| WorkerManager.MtlWorkerManager.AcquireFirst | libs/st2110core/src/backends/mtl/mtl_worker_manager.cpp:352-375 | first locked section: retire, then try to share |
| WorkerManager.MtlWorkerManager.AcquireSecond | libs/st2110core/src/backends/mtl/mtl_worker_manager.cpp:434-472 | second locked section: share what has appeared meanwhile, or register the spawned worker under a fresh id |
| WorkerManager.MtlWorkerManager.ReleaseGraph | libs/st2110core/src/backends/mtl/mtl_worker_manager.cpp:481-534 | the graph leaves; a worker left idle is dropped when a live worker of another runtime exists; no Shutdown request is sent |
| WorkerManager.MtlWorkerManager.InvalidateWorker | libs/st2110core/src/backends/mtl/mtl_worker_manager.cpp:536-565 | the worker leaves the list |
| GraphClient.StartConsistent | libs/st2110core/src/backends/mtl/mtl_worker_graph_client.cpp:1315-1428 | through every exit of start: running, lease, registration, handler and a positive count stay equal |
| GraphClient.StopConsistent | libs/st2110core/src/backends/mtl/mtl_worker_graph_client.cpp:1430-1472 | the same through every exit of stop |
| GraphClient.StatsConsistent | libs/st2110core/src/backends/mtl/mtl_worker_graph_client.cpp:1474-1520 | the same through every exit of stats, which succeeds exactly when something runs and the worker says it is healthy and sends the statistics asked for |
| GraphClient.RunConsistent | libs/st2110core/src/backends/mtl/mtl_worker_graph_client.cpp:1315-1532 | after any calls of the two proxies, queries and destructions whatever: running, lease, registration, handler and a positive count are equal |
| GraphClient.CallKeepsGraph | libs/st2110core/src/backends/mtl/mtl_worker_graph_client.cpp:1474-1520 | a call, destruction included, keeps the count equal to the number of started proxies if and only if it is not a statistics query that the worker leaves unanswered while running; such a query leaves an idle client and started proxies |
| GraphClient.SilentQuery | libs/st2110core/src/backends/mtl/mtl_worker_graph_client.cpp:1474-1520 | such a query, and what follows if the graph is not destroyed: the count is one for two started proxies, and one stop ends the sessions of both |
| GraphClient.DestroyEnds | plugins/obs_st2110/src/source_runtime.cpp:936-969 | destruction leaves nothing running or leased, also after a failed query |
| GraphClient.DestroyAsks | plugins/obs_st2110/src/source_runtime.cpp:936-969 | destroying a running graph sends exactly one StopSessions, whoever sends it; destroying an idle one sends none |
| GraphClient.DestroyConfiguredGraph | plugins/obs_st2110/src/source_runtime.cpp:936-969 | the destruction in place, with either proxy missing |
| GraphClient.CallAsks | libs/st2110core/src/backends/mtl/mtl_rx_video_backend_proxy.cpp:16-83 | StopSessions is sent exactly when the last started proxy stops or a running graph is destroyed, StartSessions at most once, when the first starts |
| GraphClient.RunOfGraph | plugins/obs_st2110/src/source_runtime.cpp:669-674 | over whole runs in which a query that fails while running is followed by nothing but destruction: counted right up to the query and after the destruction, and one StopSessions for every last stop, that of the destructor included |
| GraphClient.MtlWorkerGraphClient.StartGraph | libs/st2110core/src/backends/mtl/mtl_worker_graph_client.cpp:1315-1428 | the start in place, with what is asked of worker and manager in order |
| GraphClient.MtlWorkerGraphClient.StopGraph | libs/st2110core/src/backends/mtl/mtl_worker_graph_client.cpp:1430-1472 | the stop in place |
| GraphClient.MtlWorkerGraphClient.QueryStats | libs/st2110core/src/backends/mtl/mtl_worker_graph_client.cpp:1474-1520 | the query in place |
| GraphClient.MtlWorkerGraphClient.StopNoexcept | libs/st2110core/src/backends/mtl/mtl_worker_graph_client.cpp:1522-1532 | the stop of the destructor |
| GraphClient.MtlWorkerGraphClient.ReleaseGraphAndClearLease | libs/st2110core/src/backends/mtl/mtl_worker_graph_client.cpp:1204-1260 | handler, registration and lease given back once each |
| GraphClient.MtlWorkerGraphClient.InvalidateWorkerAndClearLease | libs/st2110core/src/backends/mtl/mtl_worker_graph_client.cpp:1218-1260 | the worker reported broken instead |
| GraphClient.MtlRxBackendProxy.StartProxy | libs/st2110core/src/backends/mtl/mtl_rx_video_backend_proxy.cpp:16-57 | the start of a proxy, also with another sink or a failing client |
| GraphClient.MtlRxBackendProxy.StopProxy | libs/st2110core/src/backends/mtl/mtl_rx_video_backend_proxy.cpp:59-83 | the stop of a proxy |
| RtpTimestamps.ConvertsExactly | libs/st2110core/include/st2110/foundation/rtp_timestamp_mapper.hpp:43-72 | the conversion succeeds if and only if anchor + floor(ticks * 10^9 / rate) fits in 64 bits, and then is exactly that |
| RtpTimestamps.SplitNanoseconds | libs/st2110core/include/st2110/foundation/rtp_timestamp_mapper.hpp:50-66 | splitting off whole seconds loses nothing |
| RtpTimestamps.RestFits | libs/st2110core/include/st2110/foundation/rtp_timestamp_mapper.hpp:58-59 | the unchecked product never leaves 64 bits |
| RtpTimestamps.DeltaUnwraps | libs/st2110core/include/st2110/foundation/rtp_timestamp_mapper.hpp:32-41 | within half a turn the difference is exact going forward and refused going back |
| RtpTimestamps.MapRefines | libs/st2110core/include/st2110/foundation/rtp_timestamp_mapper.hpp:78-112 | one timestamp agrees with a clock over unbounded time |
| RtpTimestamps.RunUnwraps | libs/st2110core/include/st2110/foundation/rtp_timestamp_mapper.hpp:78-112 | over any run within half a turn of the latest time the mapper gives the exact unwrapped time, without drift |
| RtpTimestamps.TimesNeverDecrease | libs/st2110core/include/st2110/foundation/rtp_timestamp_mapper.hpp:78-112 | over any run whatever the accepted times never decrease |
| RtpTimestamps.MapMovesForward | libs/st2110core/include/st2110/foundation/rtp_timestamp_mapper.hpp:91-111 | the tick count moves forward also when the conversion then fails |
| RtpTimestamps.RtpTimestampMapper.MapTimestamp | libs/st2110core/include/st2110/foundation/rtp_timestamp_mapper.hpp:78-112 | the mapper in place |
| RtpTimestamps.RtpTimestampMapper.Reset | libs/st2110core/include/st2110/foundation/rtp_timestamp_mapper.hpp:114-119 | back to no origin |
| SynchronizedPlayout.PlayoutKeepsOrder | libs/st2110core/include/st2110/delivery/synchronized_frame_sink.hpp:320-380 | between a start and the next, for any interleaving and each kind: what left followed by what is queued is what was accepted, in arrival order and with times that never decrease |
| SynchronizedPlayout.PlayoutNeverEarly | libs/st2110core/include/st2110/delivery/synchronized_frame_sink.hpp:325-354 | nothing is taken before its playout time, nor while the other queue has an earlier head; a tie goes to video |
| SynchronizedPlayout.PlayoutAccounts | libs/st2110core/include/st2110/delivery/synchronized_frame_sink.hpp:112-184 | everything ever offered is accounted for, and a start never meets the thread of an earlier one |
| SynchronizedPlayout.RunKeepsInv | libs/st2110core/include/st2110/delivery/synchronized_frame_sink.hpp:64-100 | the invariant over every interleaving of arrivals, the playout thread, start and stop |
| SynchronizedPlayout.InsertedAscending | libs/st2110core/include/st2110/delivery/synchronized_frame_sink.hpp:242-250 | insertion keeps any sorted queue sorted and adds one item |
| SynchronizedPlayout.PlayoutTimeShifts | libs/st2110core/include/st2110/delivery/synchronized_frame_sink.hpp:300-318 | the playout time follows the media time, monotonically, and saturates at the end of the clock |
| SynchronizedPlayout.SynchronizedFrameSink.Start | libs/st2110core/include/st2110/delivery/synchronized_frame_sink.hpp:64-82 | queues and anchor cleared, mappers kept |
| SynchronizedPlayout.SynchronizedFrameSink.AskStop | libs/st2110core/include/st2110/delivery/synchronized_frame_sink.hpp:84-89 | the first locked section of stop |
| SynchronizedPlayout.SynchronizedFrameSink.FinishStop | libs/st2110core/include/st2110/delivery/synchronized_frame_sink.hpp:94-99 | the second |
| SynchronizedPlayout.SynchronizedFrameSink.InsertSorted | libs/st2110core/include/st2110/delivery/synchronized_frame_sink.hpp:242-250 | the scan inserts after equal times |
| SynchronizedPlayout.SynchronizedFrameSink.TrimVideoQueue | libs/st2110core/include/st2110/delivery/synchronized_frame_sink.hpp:252-257 | the oldest beyond the bound go, each counted |
| SynchronizedPlayout.SynchronizedFrameSink.TrimAudioQueue | libs/st2110core/include/st2110/delivery/synchronized_frame_sink.hpp:259-264 | the same for audio |
| SynchronizedPlayout.SynchronizedFrameSink.OnVideoFrame | libs/st2110core/include/st2110/delivery/synchronized_frame_sink.hpp:112-147 | one video frame offered |
| SynchronizedPlayout.SynchronizedFrameSink.OnAudioFrame | libs/st2110core/include/st2110/delivery/synchronized_frame_sink.hpp:149-184 | one audio block offered |
| SynchronizedPlayout.SynchronizedFrameSink.TakeDue | libs/st2110core/include/st2110/delivery/synchronized_frame_sink.hpp:328-354 | one turn of the playout loop |
| SynchronizedPlayout.SynchronizedFrameSink.FinishHandOver | libs/st2110core/include/st2110/delivery/synchronized_frame_sink.hpp:361-392 | the counters after a delivery, or the stop after a failed one |

## Left out

- MTL, NDI, OBS, sockets, mmap, memfd, fork, exec and clocks: their results are parameters or steps that may go any way.
- SDP parsing, signaling validators, the configuration UI and error-detail texts: mostly per-field checks; resulting configurations are inputs.
- Sequence numbers of the ring, worker ids, request ids, start counts and statistics counters are unbounded; their own wrap-around at 64 bits is not modelled.
- Memory orderings and mutexes: each atomic operation, each plain store and each locked section is one step.
- Video and audio reorder buffers share one expected number and one packet map with the width of their kind; the source keeps one field for each.
- Segments that fall outside their row, and gap policies that are not implemented (they throw), are excluded by preconditions.
- The enumerations in shared memory and in started configurations are assumed to hold declared values; a raw scan mode is decoded and checked.
- Audio export and delivery: the slot protocol is the same as for video; PCM decoding to 32 bits and the audio capacity formula are not modelled. Where the source returns without giving the slot back on an unknown PCM format, no valid configuration reaches it.
- StatsEvent is an ordered list of counters and flags; what each counter means is not modelled.
- The receive loop of the socket legs, the stored-packet queue between them and the downstream thread, and health reporting: they pass packets on in order.
- Reorder and playout tuning formulas: only the bounds they guarantee on the window matter.
- MtlWorkerProcessState and MtlReceiveGraph: their invariants follow from those of the manager and the client.
- Framing over a live peer: a reader sees the bytes the peer will have sent; waiting for them is not modelled, malformed ancillary data neither.
- The local clock of the playout is an unbounded integer with the largest time point as a bound; overflow when the anchor itself is set beyond it is not modelled.
- PlanePacking.CopyPlanesToPayload: requires the memory behind a source plane to be as long as its line size and rows say, which the receive library promises and the source does not check.
- PlanePacking.ExportVideoFrame: requires the same of the memory behind the source planes.
- FrameDelivery.FramesDelivered: is stated for a client with a sink that takes its frames; without one the source passes every slot over, and a sink that throws loses its frame.
- EndToEnd.PicturesArrive: requires the lowest number to arrive first, each packet to arrive within the window of the lowest one missing, and the gap policy to be patient; LossyDelivery gives what happens when it is not.
- LossyDelivery.DeliveredIffPatient: requires a window of at most a quarter of the number range, as every window the program computes is (at most 8192 of 2^32 for video, 512 of 2^16 for audio).
