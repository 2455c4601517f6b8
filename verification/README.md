# Verified model of the media engine

A Dafny 4.11 model of the parts of the engine whose correctness is spread over many calls: the MPEG-TS
multiplexer and demultiplexer, the RTMP ingress guard and media converters, the RTMP output, the NVDEC surface
protocol, the director, and the scheduler. `dafny verify dfyconfig.toml` checks all of it.

Objects that the program updates in place are classes whose methods are proved, field by field, against
specification functions on values (`View()` gives the value of an object); loops are loops with invariants.
The main results are lemmas about those functions: over every byte string, every cut, every run and every
interleaving. Tasks that run concurrently are step systems, one action per step of the code.

| file | what it models |
|---|---|
| Bytes | fixed-width integers, byte strings, containers |
| Crc, Timestamps, TsPacket, Pes, Psi, Tables, Elementary | the codecs under MPEG-TS: CRC, 33-bit times and PCR, packets, PES, tables, H.264 Annex B and ADTS |
| Demuxer, Resync, Muxer, MuxDemux, PacketLoss, Malformed, Continuity, Reassembly, SectionLoss, Memory | stream demultiplexer and multiplexer, that one undoes the other, what a packet loss costs, what is refused, when the cut of the bytes matters, when sections get lost, and bounds on what is held |
| Surfaces, SurfaceLeases, DriverCalls, DecodeGate | ownership of GPU surfaces over decoder generations, which frames are lent, the log of driver calls, and the keyframe gate in front |
| Ingress, ChunkSender, ChunkMisuse | the RTMP chunk stream guard, a sender that follows the protocol, and one that does not |
| Avc, AvcRoundTrip, AvcGate, AvcHeaderLoss, Aac, AacGate | media conversion between elementary streams and RTMP messages, and what it takes and refuses |
| SinkGate, GateOpens, GateLoss, Reconnection, RtmpClock | the RTMP output over reconnections, when its gate opens and what it lets through, when it is at risk, when it reconnects, and the 32-bit source clock |
| Director | the two-camera director |
| ProgramClock, Retiming, Output, OutputStream, IdrRequest | output clock, decode permits, encode loops, output tasks, what arrives of their bytes, and when they ask for an IDR |

Some statements that one might expect are false of the code. Each has a lemma that says exactly when it fails,
and most have one with a concrete input:

- the cut of the bytes changes how the demultiplexer resynchronises (`Resync.CutsAgreeIff`,
  `Resync.ResyncDependsOnTheCut`), and a section is lost when a continuation payload begins with 0xff
  (`SectionLoss.ReassembledIff`, `SectionLoss.SplitSectionLost`);
- a loss of a multiple of 16 packets inside a unit is not noticed (`PacketLoss.DeletionShowsIff`,
  `PacketLoss.SixteenIsAnotherUnit`), and a loss of the head of a unit also takes a unit that was still held
  (`PacketLoss.DamagedUnitMissing`);
- the 33-bit and the 32-bit clock are not always followed (`Timestamps.UnwrapRecoversIff`,
  `RtmpClock.UnwrapRecoversIff`), and then the round trip changes times (`MuxDemux.DemuxUndoesMux`);
- a decoder can be destroyed while a surface is mapped on it, because a failed unmap is only logged
  (`Surfaces.DestroyedWhileMappedIff`, `Surfaces.DestroyedWhileMapped`);
- an interrupted RTMP message is refused (`ChunkSender.InterruptionRefused`,
  `ChunkSender.GivenUpMessageRefused`), so is a chunk size above the configured message limit
  (`ChunkSender.LegalSenderAcceptedIff`, `ChunkSender.LargeChunkSizeRefused`), and a feed can be too large for
  the ingress buffer
  (`Ingress.GoodFeedRefusedIff`, `ChunkSender.OneFeedRefusedBytesAccepted`);
- the publisher can lose its sequence header (`AvcHeaderLoss.HeaderLostIff`, `AvcHeaderLoss.HeaderCanBeLost`),
  which puts the RTMP gate at risk (`GateLoss.GateAtRiskIff`, `GateLoss.RiskAfterIff`) until it breaks
  (`SinkGate.ConversionErrorBreaksTheGate`);
- a candidate of the director outlives the loss of both inputs (`Directors.Challenge`,
  `Directors.SwitchAfterDarkness`).

A DTS on an audio packet is never reported by the demultiplexer, which the round trip states as it is.

Bytes are integers below 256 and bit fields are written with division and remainder by powers of two; the CRC
register is a string of 32 bits. Counters and clocks that saturate in the program saturate here, except the generation ids of the
decoder (see Left out).

## Model

| member | source | states |
|---|---|---|
| `MuxDemux.DemuxUndoesMux` | crates/mpegts/src/stream.rs:252-482 | Multiplexing and then demultiplexing is the identity exactly while the clocks can be followed: for every sequence of video packets and single-frame ADTS audio packets with PES within 8 MiB, the transport bytes, pushed in any cut into a fresh demultiplexer and flushed, give one packet per packet of each stream and the reduced PCR of every video packet, with no error, discontinuity or resynchronisation event; a stream comes back in order with its data, PTS and reported DTS if and only if its times are followable through 33 bits |
| `MuxDemux.DemuxReports` | crates/mpegts/src/stream.rs:252-482 | Whatever the clocks do, each stream comes back in order with its data, and each time is what the unwrapper of its stream makes of the true time modulo 2^33 |
| `Timestamps.ForwardFollowable` | crates/mpegts/src/stream.rs:208-229 | Every clock that starts below 2^33, never goes back and moves forward by less than 2^32 per step is followable |
| `MuxDemux.TablesRun` | crates/mpegts/src/stream.rs:626-657 | The program tables that a push repeats leave a matching demultiplexer matched and report one program map, exactly when none were sent yet or 9000 ticks have passed |
| `MuxDemux.UnitRun` | crates/mpegts/src/stream.rs:333-406 | A PES unit of any size, spread over transport packets, reaches the PES assembler of its PID byte for byte; the unit held before it is emitted when it starts |
| `MuxDemux.FlushHeld` | crates/mpegts/src/stream.rs:317-331 | Flushing delivers exactly the units of undeclared length that were still held, video first |
| `PacketLoss.DamagedUnitMissing` | crates/mpegts/src/stream.rs:333-406 | What a loss costs, over whole runs and in any cut: when packets of one unit are deleted or replaced by damaged ones so that it shows, exactly that unit is missing (and, if its head is gone, a unit of undeclared length that was still held); the other stream and all clocks received are untouched, the next unit of the stream is marked as a discontinuity and its later ones follow afresh, and only trouble on that PID is reported |
| `PacketLoss.OnlyFirstMarked` | crates/mpegts/src/stream.rs:426-469 | Of the packets behind a loss the first is marked as a discontinuity and no other |
| `PacketLoss.DeletionShowsIff` | crates/mpegts/src/stream.rs:353-373 | Deleting packets of a unit shows with the next packet that arrives if and only if the number missing in front of it is not a multiple of 16 |
| `PacketLoss.TailShowsIff` | crates/mpegts/src/stream.rs:353-373 | Deleting the rest of a unit shows with the next unit under the same condition |
| `PacketLoss.DamageShows` | crates/mpegts/src/stream.rs:333-352 | A packet that the transport flags, that cannot be read, or that is flagged as discontinuous always shows |
| `PacketLoss.SixteenIsAnotherUnit` | crates/mpegts/src/stream.rs:353-373 | The condition is needed: for every unit of more than 65535 + 2944 data bytes, losing sixteen packets behind any first ones that hold its header, and before its last, is receiving another unit, whose data lack 2944 bytes |
| `PacketLoss.StrikeStep` | crates/mpegts/src/stream.rs:333-406 | From any state: a counter jump, a damaged, unreadable or discontinuous packet on a media PID drops the open unit and the payload, marks the next packet and reports trouble, and touches nothing else |
| `PacketLoss.FailedStepInterrupts` | crates/mpegts/src/stream.rs:252-316 | Every packet that fails to parse or to be processed resets its PID, marks its next packet and is reported last |
| `Resync.CutsAgreeIff` | crates/mpegts/src/stream.rs:252-316 | Exactly when the cut into pushes does not matter, from any state: every cut ends in the events, state and left-over bytes of a single push if and only if the bytes are safe, that is, wherever a packet is not where it is expected and more than 188 bytes remain, the first sync byte ahead lies within 188 bytes and the byte 188 after it, if present, is a sync byte |
| `Resync.CutIndependence` | crates/mpegts/src/stream.rs:252-316 | On bytes with 0x47 at every 188th position every cut into pushes ends in the same events, state and left-over bytes as a single push |
| `Resync.ResyncDependsOnTheCut` | crates/mpegts/src/stream.rs:484-491 | A concrete case of bytes that are not safe: 377 bytes with a false sync byte are resynchronised differently in one push and in two |
| `Resync.GarbageIsSkipped` | crates/mpegts/src/stream.rs:252-316 | Joining in the middle: bytes without a sync byte in front of aligned packets are skipped in every cut, every one of them counted, and state, left-over bytes and all other events are as if they had not been there |
| `Demuxer.StreamDemuxer.Push` | crates/mpegts/src/stream.rs:252-316 | The push loop does to the fields exactly what the drain specification says, and after any input at all fewer than 188 bytes stay buffered |
| `Demuxer.StreamDemuxer.Process` | crates/mpegts/src/stream.rs:333-406 | Continuity checking, discontinuity handling and dispatch by PID, field by field |
| `Demuxer.StreamDemuxer.Emit` | crates/mpegts/src/stream.rs:426-469 | A complete PES becomes one video packet or one audio packet per ADTS frame, with unwrapped times, and consumes the pending discontinuity |
| `Demuxer.UnitSpreads` | crates/mpegts/src/stream.rs:445-469 | A unit of several ADTS frames gives one packet per frame, in order, each 1920 ticks per block of 1024 samples after those before, and only the first marked |
| `Malformed.PacketReadIff` | crates/mpegts/src/lib.rs:97-169 | Exactly which byte strings are read as transport packets |
| `Malformed.PesReadIff` | crates/mpegts/src/stream.rs:563-604 | Exactly which byte strings are read as PES packets: start code, header within the data, and the announced times with their marker bits |
| `Malformed.CorruptTableRefused` | crates/mpegts/src/stream.rs:408-424 | A good table changed within four consecutive bytes is reported and leaves the demultiplexer as it is |
| `Malformed.AudioRefusedIff` | crates/mpegts/src/stream.rs:445-469 | An audio unit is refused as a whole exactly if it does not split into ADTS frames |
| `Memory.MemoryIsBounded` | crates/mpegts/src/stream.rs:73-206 | Whatever bytes arrive in whatever pieces: fewer than 188 wait for alignment, no section being assembled reaches 4098 bytes and no PES exceeds 8 MiB |
| `Muxer.PacketizeRefines` | crates/mpegts/src/stream.rs:685-741 | The packets of a payload are whole, all parse, concatenate to the payload, number on from the counter modulo 16, and only the first carries the start flag and the PCR |
| `Muxer.StreamMuxer.PacketizePayload` | crates/mpegts/src/stream.rs:685-741 | The loop that cuts a payload into packets appends exactly the specified packets and advances the counter of its PID |
| `Muxer.StreamMuxer.BuildPacket` | crates/mpegts/src/stream.rs:700-738 | Filling a 188-byte buffer in place gives header, adaptation field with stuffing, and chunk |
| `Muxer.StreamMuxer.Push` | crates/mpegts/src/stream.rs:626-653 | One push prints the tables, exactly if none were sent yet or its PTS is 9000 ticks on, and then the PES, and updates counters and table time |
| `Muxer.NeverSentOpensWithTables` | crates/mpegts/src/stream.rs:626-657 | A multiplexer without a table time, fresh or told to repeat its tables, begins its next push of any packet, whatever its PTS, with the PAT and the PMT under the counters that are due |
| `Muxer.OpensIff` | crates/mpegts/src/stream.rs:626-653 | A push begins with the PAT and the PMT if and only if none were sent yet or its PTS is at least 9000 ticks after the one they were last sent with; all its other packets belong to its stream |
| `Muxer.TablesNeverLate` | crates/mpegts/src/stream.rs:626-653 | Over every run, whatever the clocks do: no push comes 9000 ticks or more after the last one that began with the tables |
| `Muxer.UnitHead` | crates/mpegts/src/stream.rs:638-741 | How a unit begins: PID and stream id of its kind; the first packet of a video unit carries its PTS times 300, saturated at 64 bits and reduced, and the keyframe flag, the first of an audio unit no clock |
| `Muxer.StreamMuxer.ForceProgramTables` | crates/mpegts/src/stream.rs:655-657 | After it the next push of any packet, whatever its PTS, begins with the PAT and the PMT, numbered on from the counters before the call |
| `Continuity.CountersNeverSkip` | crates/mpegts/src/stream.rs:743-749 | Over the whole life of a multiplexer the counters that a receiver reads on every PID step by one modulo 16, across tables, media and calls |
| `TsPackets.PacketRoundTrip` | crates/mpegts/src/lib.rs:97-169 | Parsing undoes printing for every packet the multiplexer can build: flags, PID, counter, PCR, stuffing and payload |
| `Timestamps.TimestampRoundTrip` | crates/mpegts/src/stream.rs:594-604 | A PTS or DTS field decodes to the time modulo 2^33, for every 64-bit time |
| `Timestamps.PcrRoundTrip` | crates/mpegts/src/lib.rs:171-180 | A PCR field decodes to the 27 MHz clock modulo 300 * 2^33 |
| `Timestamps.UnwrapRecoversIff` | crates/mpegts/src/stream.rs:208-229 | A sequence of true times of any length, each seen through 33 bits, is unwrapped to itself if and only if it begins below 2^33 and every step is trackable |
| `Timestamps.UnwrapStep` | crates/mpegts/src/stream.rs:214-229 | From a true time, unwrapping the next 33-bit value returns the next true time if and only if the step is trackable: no step back over a wrap, and less than half the range forward over one |
| `Timestamps.ForwardTrackable` | crates/mpegts/src/stream.rs:214-229 | Every forward step under half the range is trackable |
| `Pes.PesRoundTrip` | crates/mpegts/src/stream.rs:563-592 | Parsing undoes printing of a PES packet; a DTS equal to the PTS comes back absent |
| `Pes.DeclaredLength` | crates/mpegts/src/stream.rs:819-834 | The length field is the exact length, or zero when it does not fit 16 bits |
| `Crc.MpegCrc32` | crates/mpegts/src/stream.rs:804-817 | The bitwise register loop computes the CRC specification on every input |
| `Crc.ResidueZero` | crates/mpegts/src/stream.rs:799-802 | Four trailing bytes leave residue zero if and only if they are the CRC of what precedes them |
| `Crc.BurstDetected` | crates/mpegts/src/stream.rs:804-817 | Any change confined to four consecutive bytes changes the CRC of a message |
| `Psi.AppendedCrcIsValid` | crates/mpegts/src/stream.rs:799-802 | A section closed with its CRC is accepted |
| `Psi.CorruptionRejected` | crates/mpegts/src/stream.rs:493-501 | A valid section corrupted within four consecutive bytes is rejected |
| `Psi.PushSection` | crates/mpegts/src/stream.rs:79-111 | The section assembler with pointer field and stuffing, as its specification says |
| `Psi.AppendSections` | crates/mpegts/src/stream.rs:113-140 | The loop that takes whole sections out of a payload and keeps the beginning of the next |
| `Tables.PatReads` | crates/mpegts/src/stream.rs:503-515 | Every PAT, with any list of programs, gives the PID of its first program other than number 0, or none |
| `Tables.PmtReads` | crates/mpegts/src/stream.rs:517-554 | Every PMT, with any descriptors and any list of streams, gives its first H.264 and its first ADTS stream and its header fields, and is refused, in that order, if it has none |
| `Psi.ParsePatPmtPid` | crates/mpegts/src/stream.rs:503-515 | The cursor loop over a PAT, on any bytes |
| `Psi.ParseProgramMap` | crates/mpegts/src/stream.rs:517-554 | The cursor loop over a PMT, on any bytes, however its lengths run |
| `SectionLoss.ReassembledIff` | crates/mpegts/src/stream.rs:73-140 | The exact limit over whole layouts: every list of sections, laid out over payloads with pointer fields, stuffing and arbitrary splits (even inside a header), is returned exactly and in order if and only if no continuation payload begins with 0xff |
| `SectionLoss.SplitSectionLost` | crates/mpegts/src/stream.rs:100-103 | A concrete case: a section of four bytes whose last byte, 0xff, comes alone is never returned |
| `Reassembly.SectionsReassembled` | crates/mpegts/src/stream.rs:73-140 | Every layout without such a continuation is returned exactly and in order |
| `Reassembly.ReceiveFollowsSender` | crates/mpegts/src/stream.rs:73-140 | At every point of such a layout the sections returned and those still to send make up the list, and the assembler holds exactly the bytes of the open section |
| `Reassembly.ContinuationTakenIff` | crates/mpegts/src/stream.rs:100-103 | For one payload: a continuation is taken if and only if its first byte is not 0xff |
| `Elementary.ParseAnnexB` | crates/mpegts/src/elementary.rs:47-80 | The Annex B loop returns the specified NAL units or the specified error |
| `Elementary.FindStartCode` | crates/mpegts/src/elementary.rs:82-94 | The next three- or four-byte start code |
| `Elementary.ParseAdtsStream` | crates/mpegts/src/elementary.rs:173-181 | The ADTS loop returns the specified frames or the specified error |
| `Surfaces.SurfaceOwnership` | crates/nvidia/src/decoder.rs:568-613 | Over every run, every order of lease drops and every pattern of failing unmaps and destroys: each unmap answers one mapping, on the decoder that mapped it and before the one destroy of that decoder; the in-use count is the number of mapped surfaces not yet passed to unmap, and so is, decoder by decoder, the count of each generation; every queued release is known; and after the exit every mapping has been passed to unmap and every decoder to destroy, and nothing is leased |
| `Surfaces.DestroyedWhileMappedIff` | crates/nvidia/src/decoder.rs:763-826 | Exactly when a decoder is destroyed under a mapped surface, over every run: whenever a decoder is passed to destroy the surfaces still mapped on it are those whose unmap on it failed, so there is one if and only if an unmap failed; after the exit the decoders that remain are those whose destroy failed |
| `Surfaces.DestroyedWhileMapped` | crates/nvidia/src/decoder.rs:796-826 | A concrete run in which a failed unmap lets the decoder be destroyed while its surface is mapped |
| `DriverCalls.IssueKeeps` | crates/nvidia/src/decoder.rs:1143-1149 | Every call made in discipline to an honest driver, whether it fails or not, keeps what exists in the driver equal to what is owed plus what failed to go |
| `DriverCalls.DisciplineMeans` | crates/nvidia/src/decoder.rs:763-826 | What the monitor checks call by call means of the whole log of calls: each unmap and destroy answers one mapping or creation, and when nothing is owed all are answered |
| `Surfaces.ExitsIffAllReturned` | crates/nvidia/src/decoder.rs:568-607 | A draining worker that is shutting down leaves its loop if and only if every lease has come back |
| `Surfaces.TakeKeeps` | crates/nvidia/src/decoder.rs:615-826 | Every step of the protocol keeps the ownership invariant |
| `Surfaces.NothingOwedAtExit` | crates/nvidia/src/decoder.rs:828-844 | At the exit no unmap or destroy is owed and no surface is leased or queued |
| `Surfaces.ReleaseKeeps` | crates/nvidia/src/decoder.rs:796-826 | A release that is owed is known, gives its surface back on the decoder that mapped it, and ends a retired generation only with its last surface, whether the driver calls succeed or not |
| `Surfaces.RetireKeeps` | crates/nvidia/src/decoder.rs:763-794 | Retiring keeps the count of every generation and forgets no decoder that still owes a surface |
| `Surfaces.DecodeKeeps` | crates/nvidia/src/decoder.rs:615-643 | Decoding, with or without a discontinuity and whatever the driver answers, keeps the counts and leaves every mapped surface with exactly one lease or queued release |
| `Surfaces.FlushKeeps` | crates/nvidia/src/decoder.rs:645-661 | Flushing keeps the same, and changes nothing where there is no generation |
| `SurfaceLeases.DecodeLends` | crates/nvidia/src/decoder.rs:615-726 | In every state of the worker and for every answer of the driver: a decode lends exactly the frames mapped before the first failure, in order, as leases of the generation it decodes with, and succeeds exactly if there is a generation, the parser took the data and every frame was mapped |
| `SurfaceLeases.FlushLends` | crates/nvidia/src/decoder.rs:645-726 | A flush does the same on the current generation and nothing without one |
| `SurfaceLeases.CommandLends` | crates/nvidia/src/decoder.rs:615-643 | At every point of every run: the frames of a decode command are leased when it returns, whatever is still leased or queued, and everything leased before stays leased |
| `Surfaces.Worker.DrainReleases` | crates/nvidia/src/decoder.rs:609-613 | Draining releases everything queued, keeps the invariant, and leaves mapped exactly what is leased |
| `Surfaces.Worker.MapDisplayQueue` | crates/nvidia/src/decoder.rs:663-726 | The display loop hands out one lease per mapped surface and stops at the first failure, unmapping a surface without a pitch |
| `DecodeGate.GenerationsStartAtKeyframes` | crates/nvidia/src/decoder.rs:413-455 | Over every sequence of packets and worker answers: the first packet forwarded and every one forwarded as a discontinuity is a keyframe, after a failure the next one forwarded opens a fresh generation, and a pending reset keeps the gate waiting |
| `DecodeGate.ForwardedIff` | crates/nvidia/src/decoder.rs:413-455 | Over every sequence of access units and answers: a usable unit is forwarded if and only if it is a keyframe, or it carries no mark and the last keyframe decoded with success was followed by no mark and no failure |
| `DecodeGate.ResetPendingIff` | crates/nvidia/src/decoder.rs:413-455 | A fresh decoder is pending exactly if a mark or a failure asked for one and no call has succeeded since |
| `Ingress.CutIndependence` | crates/rtmp/src/ingress.rs:67-106 | Every cut of a byte stream into feeds that stays within the size limits ends in exactly the chunk streams, chunk size, message count and left-over bytes, or the error, that the bytes have by themselves |
| `Ingress.BytewiseIsUnlimited` | crates/rtmp/src/ingress.rs:67-106 | Byte by byte no stream ever meets a size limit: the outcome is always the meaning of the bytes |
| `Ingress.GoodFeedRefusedIff` | crates/rtmp/src/ingress.rs:68-94 | Where the cut matters: a feed of acceptable bytes is refused if and only if it exceeds 64 KiB or, with what is buffered, the longest message and header |
| `Ingress.ChunkIsStable` | crates/rtmp/src/ingress.rs:108-272 | What a prefix decides stays decided when more input follows, and a chunk that had to wait is read the same way from the core the first attempt left |
| `Ingress.ChunkKeeps` | crates/rtmp/src/ingress.rs:108-272 | Every chunk keeps the invariant: a message in progress owes between one byte and its declared length, which is within the maximum; an unfinished Set Chunk Size has kept all it received; at most 64 chunk streams |
| `Ingress.UnfinishedIsBounded` | crates/rtmp/src/ingress.rs:86-96 | What waits for the rest of a chunk is shorter than the maximum message plus the longest header |
| `Ingress.IngressGuard.InspectFeed` | crates/rtmp/src/ingress.rs:67-106 | One feed through handshake, limits and buffer, as specified |
| `Ingress.IngressGuard.DrainBuffer` | crates/rtmp/src/ingress.rs:98-105 | The loop over complete chunks and the removal of what they took |
| `Ingress.IngressGuard.InspectOneChunk` | crates/rtmp/src/ingress.rs:108-186 | Basic header, chunk stream registration and the four message headers, with their errors in order |
| `Ingress.IngressGuard.AddPayload` | crates/rtmp/src/ingress.rs:188-221 | Extended timestamp, limits and availability of the payload |
| `Ingress.IngressGuard.AddToMessage` | crates/rtmp/src/ingress.rs:223-272 | The payload joins its message; a complete Set Chunk Size is checked and applied |
| `ChunkSender.LegalSenderAcceptedIff` | crates/rtmp/src/ingress.rs:108-272 | After a handshake of 1 + 1536 + 1536 bytes, everything a sender following section 5.3.1 of Adobe RTMP 1.0 can emit (interleaved chunk streams, four header types, three basic headers, extended timestamps, and a Set Chunk Size of any 32 bits), in every cut within the size limits, is accepted if and only if it meets none of the limits: a 65th chunk stream, a message longer than the configured maximum, or a completed Set Chunk Size that is zero, above it or has its top bit set; otherwise it is refused with the first it meets; when accepted the guard ends with the chunk size and streams of the sender, an empty buffer and exactly the messages completed |
| `ChunkSender.LegalPrefixAccepted` | crates/rtmp/src/ingress.rs:67-106 | Byte by byte no prefix of a stream that meets no limit is ever refused |
| `ChunkSender.ChunkAccepted` | crates/rtmp/src/ingress.rs:108-272 | Whatever follows it, one legal chunk is read as exactly that chunk, or refused for the limit it runs into |
| `ChunkSender.LargeChunkSizeRefused` | crates/rtmp/src/ingress.rs:251-266 | For every configured maximum from 4 bytes: a chunk size that the protocol allows and that is one above it is refused |
| `ChunkSender.InterruptionRefused` | crates/rtmp/src/ingress.rs:139-186 | The limit: while a message is unfinished a complete header on its chunk stream is refused if and only if it is not of type 3, so an aborted message cannot be replaced |
| `ChunkSender.GivenUpMessageRefused` | crates/rtmp/src/ingress.rs:139-186 | From a new guard: a legal sender begins a message and then a different header on its chunk stream, and is refused |
| `ChunkSender.OneFeedRefusedBytesAccepted` | crates/rtmp/src/ingress.rs:68-94 | From a new guard: a legal stream that is refused as one feed and accepted byte by byte |
| `ChunkMisuse.MisuseIsRefused` | crates/rtmp/src/ingress.rs:108-272 | Whatever a sender did before within the protocol and the limits, a compressed header on a new chunk stream, a complete header on an unfinished message, or a Set Chunk Size of another length than four is refused with its own error, in every cut unless a size limit came first, and nothing that follows helps |
| `AvcRoundTrip.RoundTrip` | crates/rtmp/src/avc.rs:149-231 | A whole error-free publisher run that starts with parameter sets and fits the limits is received without an error: exactly the access units from the first IDR after each header, at the same times, and parsing what arrives returns exactly the non-parameter units, the first behind the header's SPS and PPS |
| `AvcRoundTrip.RunReceived` | crates/rtmp/src/avc.rs:52-129 | For every error-free publisher run, without further condition, what the ingest returns frame by frame, errors included |
| `AvcRoundTrip.AfterEndOfSequence` | crates/rtmp/src/avc.rs:52-129 | Over every sequence of frames after an end of sequence or an accepted header: the first access unit returned holds an IDR and begins with the parameter sets of the configuration then in force |
| `AvcGate.ConfiguredIff` | crates/rtmp/src/avc.rs:52-69 | Over every run: the configuration in force is that of the last sequence header taken, and none if none was |
| `AvcGate.WaitingIff` | crates/rtmp/src/avc.rs:52-129 | Over every run: the ingest waits for an IDR if and only if a header was taken or a sequence ended and no access unit was returned since |
| `AvcGate.ReturnedIff` | crates/rtmp/src/avc.rs:71-129 | Exactly which frames return an access unit |
| `AvcGate.HeaderSentIff` | crates/rtmp/src/avc.rs:179-231 | A successful call sends a sequence header if and only if both kinds of parameter sets are known and none was sent yet or the call brings other sets |
| `Avc.AnnexBRoundTrip` | crates/rtmp/src/avc.rs:102-115 | Parsing Annex B data returns the units it was written from, trailing zero bytes included |
| `Avc.IdrIsFound` | crates/mpegts/src/stream.rs:426-447 | The keyframe flag of the demultiplexer is set exactly when one of the units is an IDR slice |
| `Avc.AvccRoundTrip` | crates/rtmp/src/avc.rs:256-282 | Reading length-prefixed data returns the units it was written from |
| `Avc.ParsedAreGood` | crates/mpegts/src/elementary.rs:47-80 | Every unit the Annex B parser returns is non-empty, has a clear forbidden bit, holds no start code and carries its own type |
| `Avc.ParseAvccUnits` | crates/rtmp/src/avc.rs:256-282 | The AVCC loop returns the specified units or the error |
| `Avc.AvcIngest.PushNalUnits` | crates/rtmp/src/avc.rs:71-129 | Gating on an IDR, parameter sets in front, size limits, and the access unit returned |
| `Avc.AvcPublisher.PushAnnexB` | crates/rtmp/src/avc.rs:149-177 | Limits, parsing, and the whole result and state of a publisher call |
| `Avc.AvcPublisher.PushUnits` | crates/rtmp/src/avc.rs:179-231 | Learning parameter sets, the header when due, and the AVCC frame |
| `AvcHeaderLoss.HeaderLostIff` | crates/rtmp/src/avc.rs:195-214 | A due header is recorded as sent although its call fails if and only if the media units exceed the limit once length-prefixed |
| `AvcHeaderLoss.HeaderCanBeLost` | crates/rtmp/src/avc.rs:205-214 | A concrete access unit of legal size for which that happens |
| `Aac.FramedParses` | crates/rtmp/src/aac.rs:54-69 | A raw payload of 1 to 8184 bytes, framed by the ingest, parses to the same payload and the fixed header, whatever follows |
| `Aac.FramesSplit` | crates/mpegts/src/elementary.rs:173-181 | A concatenation of framed payloads splits into exactly those payloads |
| `Aac.FramedIsPublishable` | crates/rtmp/src/aac.rs:86-120 | Publishing a framed payload yields the payload unchanged |
| `Aac.RunRoundTrip` | crates/rtmp/src/aac.rs:37-125 | Every published run is received without an error, at the same times, each payload behind the canonical header |
| `AacGate.ReturnedBy` | crates/rtmp/src/aac.rs:38-70 | Over every run of messages, what each returns: a unit, framed, at its time, if and only if a sequence header was taken before and the payload fits a frame, and otherwise which error |
| `AacGate.PublishableIff` | crates/rtmp/src/aac.rs:87-120 | Exactly which bytes the publisher takes, and the payload it sends |
| `AacGate.ConfigAcceptedIff` | crates/rtmp/src/aac.rs:127-144 | A sequence header is taken exactly if its bits say LC, 48 kHz, stereo |
| `SinkGate.EveryConnectionWellOpened` | crates/rtmp/src/sink.rs:102-261 | Over every sequence of packets, conversion failures, losses and reconnections, given only of each packet that a keyframe holds an IDR slice and that its media units fit the limit once length-prefixed: on each connection the first message is an AVC sequence header, the second an IDR access unit, and the first audio message the AAC sequence header |
| `GateLoss.GateAtRiskIff` | crates/rtmp/src/sink.rs:102-294 | At every point of every run of honest packets whose connections are all well opened so far, whatever headers were lost before: some honest next call can open a connection wrongly if and only if the connection is live, nothing was sent on it, and the publisher considers its header sent |
| `GateLoss.RiskAfterIff` | crates/rtmp/src/sink.rs:102-294 | Which calls lead there and which lead away, at every point of such a run: the header is missing afterwards if and only if the call loses it, or it was missing and the call, without a discontinuity, is dropped while the gate waits, cannot express its times, or fails its conversion with no new header due |
| `SinkGate.GateLostIff` | crates/rtmp/src/sink.rs:181-232 | In a run that has lost no header so far: some honest next call can open a connection wrongly if and only if this call loses its header, that is, it reaches the conversion on a connection without messages, the header it owes can be built, and its media exceed the limit |
| `SinkGate.SendKeeps` | crates/rtmp/src/sink.rs:281-294 | Every send of an honest packet leaves every connection well opened, and keeps the gate invariant unless it loses its header |
| `SinkGate.VideoKeeps` | crates/rtmp/src/sink.rs:201-233 | Converting and sending video on an open gate: well opened whatever the session takes, with the invariant kept unless the header is lost or the connection fails |
| `SinkGate.AudioKeeps` | crates/rtmp/src/sink.rs:234-251 | Audio behind an open gate sends its sequence header first and keeps the invariant unless the connection fails |
| `SinkGate.DisconnectKeeps` | crates/rtmp/src/sink.rs:166-179 | A lost connection, however much it was sent, leaves a fresh gate |
| `SinkGate.ConversionErrorBreaksTheGate` | crates/rtmp/src/sink.rs:181-232 | A concrete case: two honest keyframes, the first too large once length-prefixed, after which the connection opens with a bare access unit |
| `GateOpens.GateOpenIff` | crates/rtmp/src/sink.rs:181-261 | At every point of every run the gate of a live connection is open if and only if a video keyframe was sent on it and no packet since was marked as a discontinuity |
| `GateOpens.DroppedIff` | crates/rtmp/src/sink.rs:181-187 | At every point of every run: a packet is dropped to wait for a keyframe if and only if it is no video keyframe and is marked as a discontinuity or meets a closed gate |
| `GateOpens.CallGives` | crates/rtmp/src/sink.rs:188-294 | A call that passes the gate adds exactly the converted messages that the session takes, and is sent exactly if it takes them all and the socket takes its bytes; otherwise the connection is lost |
| `GateOpens.SentIff` | crates/rtmp/src/sink.rs:181-294 | Exactly which calls are sent |
| `GateOpens.ConnectionCarries` | crates/rtmp/src/sink.rs:181-261 | After any run of sent calls a fresh connection carries the frames of the publisher run over the video packets, and audio that is received as one unit per packet, in order, with times and payload |
| `GateOpens.MillisMeans` | crates/rtmp/src/sink.rs:535-543 | A time in milliseconds is exact but for truncation toward zero, and missing exactly without a timescale or beyond 64 bits |
| `Reconnection.CallWhileDown` | crates/rtmp/src/sink.rs:102-164 | What a call does while there is no connection: when it starts an attempt, when it connects, and when it sets the next retry time |
| `Reconnection.LossIsRetriedAtOnce` | crates/rtmp/src/sink.rs:166-179 | The first call after a loss starts an attempt |
| `Reconnection.WaitIsDoubled` | crates/rtmp/src/sink.rs:160-164 | Over every run the wait is the initial one doubled once per refusal since the last connection, and at most the maximum |
| `Reconnection.RefusalIsRetried` | crates/rtmp/src/sink.rs:102-164 | Over every run: after a refusal that may be retried no attempt starts before the wait has passed, and the first call from then on starts one |
| `SinkGate.RtmpPacketSink.PublishOne` | crates/rtmp/src/sink.rs:181-261 | Discontinuity, connection, gate and codec |
| `SinkGate.RtmpPacketSink.SendPacketNow` | crates/rtmp/src/sink.rs:281-294 | An I/O error loses the connection; the invariant is kept |
| `RtmpClock.UnwrapRecoversIff` | crates/rtmp/src/source.rs:49-60 | A sequence of true times of any length comes back unchanged if and only if it starts within 32 bits and every step is trackable |
| `RtmpClock.UnwrapStep` | crates/rtmp/src/source.rs:49-60 | One step returns the true time if and only if it is trackable |
| `RtmpClock.ForwardTrackable` | crates/rtmp/src/source.rs:49-60 | Forward steps up to half the range are trackable |
| `Directors.AutomaticIff` | crates/core/src/director.rs:239-320 | Over every run with time in order an evaluation switches automatically if and only if the rival is ahead now and a streak has stood for the candidate hold: begun in a settled shot, free of holds and pauses, with the rival ahead or both inputs unavailable at every evaluation since |
| `Directors.AutomaticTiming` | crates/core/src/director.rs:265-320 | An automatic switch comes at least max(minimum shot, cooldown) plus the candidate hold after construction and after every earlier switch |
| `Directors.ActiveIsEligible` | crates/core/src/director.rs:186-349 | Held, paused or automatic: after an evaluation the active input is eligible if and only if any input is |
| `Directors.HoldIsObeyed` | crates/core/src/director.rs:208-231 | A hold in force wins whenever its input is eligible, and is left only for a failover |
| `Directors.TakeIsObeyed` | crates/core/src/director.rs:152-231 | Over every run: while the hold of a take lasts, every evaluation on which the input taken is eligible ends on it, manually if it had to switch; when it is not, the active input is left only for a failover |
| `Directors.NothingAutomaticWhilePaused` | crates/core/src/director.rs:164-320 | Over every run: from a pause to the next resume nothing switches automatically and no candidate is built |
| `Directors.ResumeFrees` | crates/core/src/director.rs:169-174 | Over every run: after a resume, until the next pause or take, an initialised director is free, whatever was paused or held |
| `Directors.DecisionReports` | crates/core/src/director.rs:351-407 | The decision reports the input now active under its name; a switch, and with it an IDR request, exactly if an initialised director changed its input |
| `Directors.Challenge` | crates/core/src/director.rs:289-347 | What an evaluation does to the candidate, including that it survives when both inputs are unavailable |
| `Directors.SwitchAfterDarkness` | crates/core/src/director.rs:322-347 | From a new director: a rival becomes a candidate, both inputs fail, and on their return the director switches at once |
| `Directors.ScoresBounded` | crates/core/src/director.rs:409-436 | Every score lies in [0, 1], and advice moves it by at most a quarter |
| `Directors.AdviceCountsWhileValid` | crates/core/src/director.rs:409-428 | Advice counts from its observation to its expiry, and then moves each score the weight of the policy toward what it advises |
| `Directors.Director.EvaluateInputs` | crates/core/src/director.rs:186-248 | Initialisation, hold, failover and pause, with the new state and the decision reported |
| `Retiming.VideoContent` | crates/runtime/src/single.rs:1065-1121 | Over every interleaving: the video encoder is given the decoded frames in order, each one or more times, frame k at exactly floor(k*90000*den/num) and strictly increasing while nothing saturates; when the loop ends no decoded frame was left out |
| `Retiming.AudioContent` | crates/runtime/src/single.rs:1151-1199 | Over every interleaving: every decoded block is encoded once and in order, everything else is the configured silence, each at the time of all samples before it; when the loop ends no block was left out, and when it fails at most the last block taken, which cannot be encoded, or else the configured silence cannot be |
| `Retiming.PermitsSuffice` | crates/runtime/src/single.rs:901-1051 | Over every interleaving: a decode task that holds a permit and a frame finds a free channel slot, and frames in flight never exceed the planned capacity |
| `Retiming.LaneKeeps` | crates/runtime/src/single.rs:920-948 | Every step of a decode task keeps the account of permits and the order of frames |
| `Retiming.VideoEncodeLoop.Turn` | crates/runtime/src/single.rs:1073-1121 | One turn of the video loop from tick to tick: poll, keep or replace the last frame, stamp it, encode it |
| `Retiming.TickEncodesNewest` | crates/runtime/src/single.rs:1073-1121 | One tick gives the encoder exactly one frame at the time of the tick: the next decoded one if it is there and only otherwise the last again; the loop ends only when nothing is left and nothing can come |
| `Retiming.AudioEncodeLoop.Turn` | crates/runtime/src/single.rs:1153-1199 | One turn of the audio loop: a decoded block or silence, the check of its shape, its time |
| `Retiming.TurnEncodesNext` | crates/runtime/src/single.rs:1153-1199 | One turn encodes the next decoded block if it is there and only otherwise silence |
| `ProgramClocks.VideoPtsExact` | crates/runtime/src/lib.rs:101-109 | While nothing saturates the clock reports the exact floor |
| `ProgramClocks.TicksIncreaseIff` | crates/runtime/src/lib.rs:101-109 | Video times strictly increase if and only if the frame rate is at most 90000 per second |
| `ProgramClocks.ProgramClock.NextVideoPts` | crates/runtime/src/lib.rs:101-109 | A video tick reports the exact floor of its index while nothing saturates, and counts itself |
| `ProgramClocks.ProgramClock.NextAudioPts` | crates/runtime/src/lib.rs:111-117 | An audio block reports the time of the samples counted before it, and adds its own |
| `Outputs.OutputConserved` | crates/runtime/src/single.rs:1276-1327 | For every pattern of arrivals and send failures: each packet that arrived is queued or has exactly one fate, in order; those counted as sent are exactly those the transport accepted; only the packet of the error that ends the loop is neither sent nor dropped; each call after a failure carries the output of a fresh multiplexer |
| `Outputs.NextCallIsNewest` | crates/runtime/src/single.rs:1277-1316 | Over every run: if the last call failed and the loop goes on, the next call carries the newest packet that has arrived, and its bytes begin with the PAT and the PMT |
| `OutputStream.StretchIsReceived` | crates/runtime/src/single.rs:1276-1327 | Over every run, whatever arrived and failed before: the bytes of all calls since the last failure, in any cut, are received by a fresh demultiplexer as exactly the packets sent in them, video and audio each in order, with data and times as unwrapping gives them |
| `IdrRequest.RequestedIff` | crates/runtime/src/single.rs:1276-1327 | Over every run: the encoder is asked for an IDR if and only if, since it last took the request, the task started or met a failure |
| `Outputs.MuxAndSend.SendOne` | crates/runtime/src/single.rs:1276-1327 | One turn of the loop, with the queue, the multiplexer and the flags |
| `Outputs.SendPackets.SendOne` | crates/runtime/src/single.rs:1225-1261 | One packet through a packet sink has one fate, sent if and only if the sink said so; a drop requests an IDR and a fatal error ends the loop |

## Left out

- `Surfaces.SurfaceOwnership`: the driver hands out neither a decoder that exists nor a surface that is mapped, and may otherwise fail at any call; the handles of the parser and of the context are not tracked; generation ids are unbounded naturals, so their saturation at u64::MAX is not modelled; the lease drops of a failed decode call may come at any later time.
- `DecodeGate.GenerationsStartAtKeyframes`: a decode future that is cancelled while it waits for the worker is not modelled.
- `MuxDemux.DemuxUndoesMux`: an audio packet of several ADTS frames, which comes back as several packets, is excluded here (`Demuxer.UnitSpreads` says how it comes back), and so is a PES above the reassembly limit of 8 MiB.
- `PacketLoss.DamagedUnitMissing`: one damaged unit per run, in a run in which a later unit of the stream arrives and, if its head is lost, an earlier one has; what several losses cost together follows step by step only (`PacketLoss.StrikeStep`).
- `Reconnection.RefusalIsRetried`: connecting itself is reduced to what the finished attempt reports.
- `Ingress.IngressGuard.InspectFeed`: after an error nothing is said about the guard, since the session ends; the saturation of usize additions is not modelled, the message limit being at most 16 MiB.
- `ChunkSender.LegalSenderAcceptedIff`: the sender never gives up a message, so Abort is not among its actions.
- `AvcRoundTrip.RoundTrip`: the RTMP library's encoding of the decoder configuration record is a parameter, assumed only to decode what it encodes.
- `SinkGate.EveryConnectionWellOpened`: sockets, TLS, the handshake and the RTMP session are reduced to their answers: whether the peer could be serviced, how many messages the session took, whether the flush succeeded.
- `Directors.AutomaticIff`: scores are reals; rounding of 32-bit floats and non-finite inputs are not modelled.
- `Retiming.VideoContent`: tickers, latency accounting and the encoders' packets are not modelled; a task that fails ends the run, so failures other than an unencodable audio block are not actions.
- `Outputs.OutputConserved`: packet times are taken as already converted to 1/90000 s; logging, statistics and the closing of the output are not modelled.
- Section and PES assemblers, timestamp unwrappers inside the demultiplexer, and the publishers inside the RTMP output are values held in fields, not objects of their own; no aliasing between them is possible in the program either.
- CUDA, NVDEC, NVENC, libsrt and libxaac calls and symbol loading.
- The RTMP listener session, the retina client, and the queues of the sources.
- The transport probe (`probe_bytes`), G.711, the audio DSP, configuration checking, graph compilation, the control socket and statistics.
