# A verified model of the protocol core of Xray-core

This project models, in Dafny, the stateful byte protocols and concurrent tables at the heart of
Xray-core and of the C interface around it, and proves what they promise over every input, every
run and every interleaving. `dafny verify dfyconfig.toml` checks all of it.

## What is modelled

* **XTLS Vision** (`proxy/proxy.go`). `VisionCodec` is the padded wire format and its resumable
  decoder, `TlsFilter` the sniffer for TLS hellos, `VisionReader` and `VisionWriter` the mode
  switches of the two ends over whole runs, `VisionLink` both ends together, and `Vision` the
  objects of the source (`TrafficState`, `VisionReader`, `VisionWriter`) proved against these.
* **Mux.Cool** (`common/mux`). `Address` and `MuxFrame` are the metadata printer and parser,
  `MuxServer` the demultiplexer, `MuxLink` the session writers and the loop over a whole run,
  `MuxTransfer` the link from what writers are given to what arrives, `MuxSession` the session
  table, and `MuxXudp` the attach and expiry protocol of XUDP entries as a state machine over its
  atomic steps, with its invariants in `MuxXudpSteps`, its runs in `MuxXudpRuns` and what goes wrong
  in `MuxXudpFaults`.
* **Chunked and authenticated streams** (`common/crypto`, `common/buf`). `Buffer` and `MultiBuffer`
  are the buffers and the buffered reader, `Chunks` the length-prefixed stream and `buf.Copy`,
  `Auth` the authenticated records with soft reads, `Nonce` the increasing nonce.
* **Tables.** `DomainMatcher` is the suffix trie, `Resolver` the feature resolver of an instance
  with re-entrant callbacks, `ReplayFilter` the two-pool replay filter, `DnsCache` the DNS answer
  cache, `VlessTrojanLink` and `VmessLink` the share-link printers and parsers.

## Where the code does not keep a promise

Some properties one would expect are false of the code. The code is modelled as it is; for each, a
lemma or method shows failing input, and another says exactly when the property holds.

* A Vision reader that is handed a cut inside the header of the last block passes header bytes on as
  content: `VisionReading.SplitHeaderLeaks`, exact condition in `VisionReading.VisionReaderRun`, by
  position in `VisionReading.BoundaryMeaning`. The mode test of the source does not look at the
  remaining command bytes.
* A Vision decoder that has seen the last block starts over on a later buffer that begins with the
  user id: `VisionCodec.RestartSwallows`, exact condition in `VisionCodec.UnpaddingRoundTrip`, and for
  the reader, which decodes some reads only, in `VisionReading.VisionReaderRun`.
* A TLS 1.3 ServerHello whose supported_versions extension is cut by a packet boundary is taken for
  an older one: `TlsFilter.CutExtensionHides`, exact condition in `TlsFilter.ServerHelloInParts`.
* A domain of 256 bytes is admitted by the length check and written with the length 0:
  `Addresses.LongDomainIsLost`, exact condition in `Addresses.AddressPortRoundTrip`.
* A packet that does not fit advances the padding generator and leaves the two ends out of step:
  `Auth.RefusedPacketGarbles`, exact condition in `Auth.AuthenticationWriter.WritePacket`.
* A replay filter whose last swap happened at time 0 takes itself for new:
  `ReplayFilters.ReplayAtZero`, exact condition in `ReplayFilters.ReplayIsRejected`.
* An XUDP worker can register a session that another worker published: `XudpFaults.RegistersAnother`,
  exact condition in `XudpRuns.RegistersOwn`.
* Such a worker can close that session before it has a parent, and the process crashes:
  `XudpFaults.CrashReached`, exact condition in `XudpFaults.CrashExact`.
* An XUDP entry can become Active with a closed session, and then does not expire:
  `XudpFaults.StaleEntry`, exact condition in `XudpFaults.StaleOnlyByActivation`.
* A manager that lists another manager's session closes it under the wrong lock, and its late close
  can make a re-attached entry expire: `XudpFaults.LateCloseHarms`, exact conditions in
  `XudpRuns.LateCloseExact` and, for such a list, in `XudpRuns.ListsExact`. When the reaper has then taken
  the entry, a second session of the same Global ID can be opened beside the first:
  `XudpFaults.TwoSessions`, exact condition in `XudpRuns.SecondSessionExact`.
* `MaxConnection` is cut to 16 bits, so ids can repeat when its low 16 bits are 0:
  `MuxSessions.RepeatedId`, exact condition in `MuxSessions.IdsDistinct`.

## Model

| member | source | states |
|---|---|---|
| VisionCodec.ScanConcat | proxy/proxy.go:464-545 | decoding is resumable: scanning two pieces one after the other is scanning their concatenation, in state and output |
| VisionCodec.BlockBytes | proxy/proxy.go:447-460 | a block byte for byte: command, two lengths of two bytes each, content, padding |
| VisionCodec.StartExactly | proxy/proxy.go:480-487 | between streams a buffer of 21 bytes or more that begins with the 16 bytes of the user id starts a header at byte 16; any other passes through |
| VisionCodec.NoRestartMeaning | proxy/proxy.go:480-487 | the restart condition, said by position: no buffer that starts after the last block begins with the user id |
| VisionCodec.UnpaddingRoundTrip | proxy/proxy.go:425-545 | for every terminated block list, raw tail and cut into buffers, the decoder's output is the contents and the tail if and only if no late buffer looks like a fresh stream; it then stands behind the last command |
| VisionCodec.RestartSwallows | proxy/proxy.go:480-487 | for every user id: an empty End block and then the id and five zeros as a buffer of their own; nothing of these comes out |
| VisionCodec.UnpaddingOpen | proxy/proxy.go:425-545 | while padding goes on, everything that has arrived is decoded, for every cut |
| VisionCodec.UnrecognisedPassesThrough | proxy/proxy.go:480-487 | a stream without the user id passes through unchanged |
| TlsFilter.ObserveKeeps | proxy/proxy.go:548-599 | direct copy is enabled only on TLS 1.2 or later with a suite 0x1301 to 0x1304; flags are never taken back and a finished filter does not change |
| TlsFilter.ServerHelloRecognised | proxy/proxy.go:548-599 | every TLS 1.3 ServerHello of section 4.1.3 of RFC 8446, given byte by byte, is recognised, its suite recorded if the record has 79 bytes, and direct copy enabled exactly for the suites 0x1301 to 0x1304 |
| TlsFilter.ClientHelloRecognised | proxy/proxy.go:548-577 | every ClientHello of section 4.1.2 of RFC 8446, given byte by byte, with any minor record version, whole or cut behind its sixth byte, marks the connection as TLS and changes nothing else |
| TlsFilter.OtherPacketOnlyCounts | proxy/proxy.go:548-577 | a packet of fewer than six bytes, or whose first, second or sixth byte is another, and that starts no ServerHello, only counts |
| TlsFilter.ServerHelloInParts | proxy/proxy.go:548-599 | a ServerHello cut into any number of packets anywhere behind its sixth byte ends the filtering, and enables direct copy exactly if the suite on record allows it and one part that is looked at holds the supported_versions extension whole |
| TlsFilter.CutExtensionHides | proxy/proxy.go:579-596 | such ServerHellos for which a cut through that extension hides it |
| TlsFilter.WithoutServerHello | proxy/proxy.go:548-599 | over every run of packets without a ServerHello: only as many as are left to filter are looked at, the connection counts as TLS exactly if one of these is a ClientHello, and nothing else changes |
| TlsFilter.EightPackets | proxy/proxy.go:144 | from a new connection: eight packets are looked at, and without a ServerHello it counts as TLS exactly if one of these starts a ClientHello |
| TlsFilter.GroupingIrrelevant | proxy/proxy.go:548-599 | as long as there are no more packets than are left to filter, it does not matter how they are grouped into calls |
| TlsFilter.WholeCall | proxy/proxy.go:548-599 | without a ServerHello one call looks at every packet it is given, nil buffers aside, even beyond the number left |
| VisionReading.ModeTestExact | proxy/proxy.go:243-252 | after one read the mode is the right one exactly if the read did not stop prematurely inside a terminating header |
| VisionReading.VisionReaderRun | proxy/proxy.go:202-257 | over every run of reads: the reader delivers contents and tail iff no read boundary is broken and no read that is still decoded restarts; it has then left padding mode, for direct copy iff the last command is Direct; if nothing restarts, modes are right after each read iff no read is premature |
| VisionReading.BoundaryMeaning | proxy/proxy.go:243-252 | broken boundaries and premature reads, said by position: a read boundary strictly inside the five header bytes of the last block with no nonzero length byte before it |
| VisionReading.SteadyAt | proxy/proxy.go:480-487 | restarts, said by position: a buffer that starts behind the last block and begins with the user id, in a read of open padding or of a filtered connection after End |
| VisionReading.VisionReaderOpen | proxy/proxy.go:202-257 | while all blocks are Continue blocks, every run of reads delivers their contents and stays in padding mode |
| VisionReading.SplitHeaderLeaks | proxy/proxy.go:243-252 | for every user id, Continue block and End block: the run from a fresh reader in which a read ends behind the second command and header bytes are delivered as content |
| VisionWriting.PaddingFits | proxy/proxy.go:425-445 | padding is non-negative and the block fits a buffer exactly for contents of up to 8171 bytes; long blocks have 900 to 1399 bytes |
| VisionWriting.PaddingRange | proxy/proxy.go:425-445 | exactly which padding lengths are drawn: 0 to 255, or for short contents to be hidden those that bring the block to 900 to 1399 bytes, as far as there is room |
| VisionWriting.ReshapeCorrect | proxy/proxy.go:390-422 | reshaping keeps the bytes and leaves every buffer small enough for a frame |
| VisionWriting.ReshapeCuts | proxy/proxy.go:390-422 | a buffer is cut exactly from 8171 bytes on: at its last application data record if that starts at byte 21 to 8171, else after 4096 bytes |
| VisionWriting.WriteShape | proxy/proxy.go:315-387 | one call emits Continue blocks, then at most one End or Direct, then raw buffers; the direct-copy flag is set exactly by a call that emits Direct; the payload is what was written |
| VisionWriting.PaddingEnds | proxy/proxy.go:353-386 | exactly when a call ends padding: a reshaped buffer of six bytes or more starts an application data record on a TLS connection, or no TLS 1.2 was seen and at most one packet is left to filter; the last command is then 2 with direct copy enabled and 1 without, else 0 |
| VisionWriting.PaddingHides | proxy/proxy.go:353-445 | on a TLS connection short contents are hidden in 900 to 1399 bytes up to the first application data record, and so are the records; other padding has at most 255 bytes |
| VisionWriting.NilHides | proxy/proxy.go:348-352 | a lone nil buffer is sent as one Continue block with 900 to 1399 bytes of padding |
| VisionWriting.WriterRun | proxy/proxy.go:315-387 | the same over every run of writes in both directions interleaved with filter steps, with the user id on the first block only; a direction switches to direct copy, or is about to, exactly if it has emitted a Direct block |
| VisionWriting.DirectAtRecord | proxy/proxy.go:315-387 | over every run on a connection with direct copy enabled: a direction pads until its first write of an application data record, and that write, and no other, emits Direct |
| VisionWriting.HelloThenDirect | proxy/proxy.go:202-387 | the same from the packet on in which a reader shows the filter a TLS 1.3 ServerHello with a suite that allows direct copy |
| VisionLink.StreamFormat | proxy/proxy.go:315-461 | the stream of any run is the user id, well-formed blocks and a raw tail |
| VisionLink.VisionDecodesWhatWasWritten | proxy/proxy.go:315-545 | end to end at the decoder: what one end wrote in any run is what the other decodes under any cut, iff nothing restarts |
| VisionLink.VisionDeliversWhatWasWritten | proxy/proxy.go:202-461 | end to end at the reader: what was written is what is delivered iff padding still goes on, or no read boundary is broken and nothing restarts; the reader then ends in direct copy exactly if the writer does or is about to |
| Vision.TrafficState.Take | proxy/proxy.go:489-540 | every iteration of the decode loop consumes at least one byte and agrees with the byte-wise decoder |
| Vision.TrafficState.DecodeLoop | proxy/proxy.go:488-545 | the loop computes the byte-wise decoder's state and output |
| Vision.TrafficState.XtlsUnpadding | proxy/proxy.go:464-545 | one call feeds one buffer to the decoder of its direction and leaves the other direction alone |
| Vision.TrafficState.XtlsFilterTls | proxy/proxy.go:548-599 | the loop over the buffers computes the filter that the results of TlsFilter above speak of |
| Vision.VisionReader.UnpadAll | proxy/proxy.go:234-242 | the buffers of a read are fed in order and empty outputs dropped |
| Vision.VisionReader.TestMode | proxy/proxy.go:243-252 | the mode test |
| Vision.VisionReader.ReadMultiBuffer | proxy/proxy.go:202-284 | one read is one step of the run model; on the switch to direct copy the bytes stuck in the TLS layer follow, once |
| Vision.XtlsPadding | proxy/proxy.go:425-461 | the buffer built in place is the id and the encoded block, within 8192 bytes, and Extend never panics |
| Vision.ReshapeMultiBuffer | proxy/proxy.go:390-422 | the loop computes the reshaped list |
| Vision.VisionWriter.PadLoop | proxy/proxy.go:353-386 | the padding loop computes the side and the buffers that PaddingEnds, PaddingHides and WriteShape speak of |
| Vision.VisionWriter.WriteMultiBuffer | proxy/proxy.go:315-387 | one write is one step of the runs above, seen by the filter first |
| Buffers.Buffer.Write | common/buf/buffer.go:266-273 | appends what fits and reports how much |
| Buffers.Buffer.Extend | common/buf/buffer.go:148-157 | appends zero bytes in place |
| Buffers.Buffer.Resize | common/buf/buffer.go:203-220 | the content becomes the given range of it, counted from the end where negative, grown with zeros behind and bytes of the array in front; where the source panics nothing changes |
| Buffers.Buffer.Advance | common/buf/buffer.go:223-229 | drops bytes from the front, counted from the end where negative |
| Buffers.Buffer.Read | common/buf/buffer.go:313-324 | moves bytes out; what was read and what remains is the old content |
| MultiBuffers.MergeBytes | common/buf/multi_buffer.go:39-54 | appends the bytes, filling the last buffer first, and keeps buffers regular |
| MultiBuffers.SplitBytes | common/buf/multi_buffer.go:100-123 | takes exactly min(n, total) bytes; taken and rest make up the original |
| MultiBuffers.SplitSize | common/buf/multi_buffer.go:173-204 | takes at most size bytes, in whole buffers unless the first alone is larger, and all there is if it fits; at 8192 it takes something from non-empty content |
| MultiBuffers.BufferedReader.Read | common/buf/reader.go:61-86 | a prefix of the remaining bytes, from the cache if it holds any |
| MultiBuffers.BufferedReader.ReadAtMost | common/buf/reader.go:100-115 | at most size bytes of the remaining stream, none lost |
| Chunks.ChunksRoundTrip | common/crypto/chunk.go:102-160 | non-empty chunks and then an empty one are read back up to and including that one, whatever follows |
| Chunks.WriteChunks | common/crypto/chunk.go:140-160 | the writer cuts the content into non-empty chunks of at most 8192 bytes, one if it fits, which read back as the content in front of any stream that starts with an empty chunk; only an empty write makes the empty chunk |
| Chunks.ChunkStreamReader.ReadMultiBuffer | common/crypto/chunk.go:102-126 | one piece of what is to come, or the end, for every segmentation; an end inside a header is an error |
| Chunks.ChunkStreamReader.Copy | common/buf/copy.go:91-119 | everything up to the end goes to the sink, unless a write fails; then a non-empty piece is lost and copying on ends where an undisturbed copy would have |
| Chunks.WriteAndClose | common/crypto/chunk.go:140-160 | any list of non-empty writes and then the empty one: non-empty chunks that make up what was written, and the empty chunk |
| Chunks.Transfer | common/crypto/chunk.go:102-160 | end to end: however these bytes, with anything behind them, are cut into buffers, copying gives the sink exactly what was written and stops right behind the empty chunk |
| Addresses.AddressRoundTrip | common/protocol/address.go:155-259 | an address is read back exactly if it is canonical, and a non-canonical one never |
| Addresses.DomainRead | common/protocol/address.go:155-233 | what is read for any name of 1 to 255 bytes: the IP address it spells if it starts with a digit or a bracket, else the name if it has only letters, digits, dash, dot and underscore, else nothing |
| Addresses.AddressPortRoundTrip | common/protocol/address.go:87-142 | the same with the port in front or behind, as an equivalence |
| Addresses.LongDomainIsLost | common/protocol/address.go:242-256 | every domain of 256 bytes is written and read back as an error |
| MuxFrames.MuxCodec | common/mux/frame.go:37-42 | the package's own address parser meets all that the results below ask of one, as long as parsed IP text gives IP addresses |
| MuxFrames.MetaBodyShort | common/mux/frame.go:65-98 | metadata is 4 to 273 bytes long, so the limit of 512 is never met |
| MuxFrames.WriteTo | common/mux/frame.go:65-98 | the bytes appended in place, length filled in last, are the encoded metadata |
| MuxFrames.MetaRoundTrip | common/mux/frame.go:65-160 | for every canonical destination: id, status, option, target and, for UDP New frames with data, Global ID are parsed back |
| MuxFrames.MetaOnWire | common/mux/frame.go:65-98 | metadata byte for byte: id, status, option bits, and in a New frame or with a UDP address network, port, address type 1, 2 or 3 and address, and the Global ID in a tagged New frame |
| MuxFrames.LaterFramesOnWire | common/mux/frame.go:65-98 | the Keep and End frames of a session, byte for byte, length included |
| MuxFrames.LengthLimit | common/mux/frame.go:100-118 | metadata of up to 512 bytes that are there is parsed, anything longer or cut off is refused |
| MuxFrames.Unmarshal | common/mux/frame.go:100-118 | reads the metadata at the front of the stream and stands right behind it, for every segmentation |
| MuxServer.ServerWorker.ReadPacket | common/mux/reader.go:30-54 | exactly the packet of the frame, if and only if it is whole and fits a buffer |
| MuxServer.ServerWorker.CopyOrSkip | common/mux/server.go:294-318 | after a failed write the rest of the body is skipped, so the stream ends up behind it either way |
| MuxServer.ServerWorker.SkipRest | common/mux/server.go:308-315 | behind a failed write, copying on to nowhere ends where an undisturbed copy would have ended |
| MuxServer.ServerWorker.HandleStatusKeep | common/mux/server.go:294-318 | found, unknown session or failed write: the stream stands behind the body |
| MuxServer.ServerWorker.HandleStatusEnd | common/mux/server.go:320-328 | the session is closed as EndReleases and FrameShuts say, and the body skipped |
| MuxServer.ServerWorker.HandlePlainNew | common/mux/server.go:258-292 | a session on a fresh outlet gets the first body, or the dispatch error path skips it |
| MuxServer.ServerWorker.HandleXudp | common/mux/server.go:189-256 | the packet goes to the entry's old outlet if that works and to a new one otherwise; conflict and failures included |
| MuxServer.ServerWorker.HandleFrame | common/mux/server.go:330-355 | in every branch it goes on from, the reader stands on the next frame boundary; a whole frame, of whatever size, changes the state as its branch says, on which BreaksExactly, FrameDelivers and FrameShuts build |
| MuxServer.BreaksExactly | common/mux/server.go:160-355 | exactly which whole frames break the connection: unknown status, network not allowed, packet too large, nothing to register with or dispatch to; a Keep-alive frame changes nothing |
| MuxServer.RepliesExactly | common/mux/server.go:294-306 | an End frame is sent back exactly for data of a Keep frame whose session is not known |
| MuxServer.TakenOver | common/mux/server.go:208-248 | a packet of a known XUDP entry: the session it was attached to is gone; the old outlet takes the packet, or is closed as it is and the packet is the first on a fresh one |
| MuxLink.FrameStepValid | common/mux/server.go:160-355 | every frame leaves distinct sessions with distinct outlets |
| MuxLink.FrameDelivers | common/mux/server.go:160-355 | isolation: one frame gives a session its own payload and nothing else, and leaves its outlet open or closed as it was |
| MuxLink.EndReleases | common/mux/server.go:320-328 | the End frame of a session takes it out of the table and closes its outlet, unless it is an XUDP session, whose outlet stays as it is |
| MuxLink.OpeningDelivers | common/mux/server.go:189-292 | the frame that opens a session: on a fresh outlet for a plain session, a new XUDP entry and one whose old outlet has failed, on the old outlet behind what it had received for an entry that is re-attached |
| MuxLink.RunDelivers | common/mux/server.go:160-378 | any run delivers to an open session exactly the payload of its own frames, in order |
| MuxLink.RunSparesReleased | common/mux/server.go:160-378 | over any run the outlet of an ended session keeps what it has received, and stays closed, unless an XUDP entry takes it up |
| MuxLink.SessionDelivers | common/mux/server.go:160-378 | from the frame on that opens a session, its outlet receives exactly the payload of its frames up to their End, in order, whatever the frames of other sessions do; at the end the outlet of a plain session is closed exactly if there was an End frame |
| MuxLink.FrameShuts | common/mux/session.go:169-202 | one frame closes the outlet of a plain session, and removes a session, exactly if it is its End frame or brings it data that does not arrive whole; frames of other sessions never do, and an XUDP session leaves its outlet as it is |
| MuxLink.SessionShuts | common/mux/server.go:258-328 | the life of a plain session in any run, whether writes fail or not: its outlet is open until its End frame or the first frame whose data does not arrive whole, and closed from then on |
| MuxLink.WriteMetaWithFrame | common/mux/writer.go:67-83 | metadata, length and data go out in one write |
| MuxLink.Writer.WriteMultiBuffer | common/mux/writer.go:93-115 | New first, then Keep; for packets one frame per buffer with its address, for streams frames of as many whole buffers as 8192 bytes hold; the payloads are what was written; an empty write is one frame without data |
| MuxLink.Writer.Close | common/mux/writer.go:118-132 | the End frame, with the error bit if there was one |
| MuxLink.ServeOne | common/mux/server.go:330-378 | one turn of the loop: the next frame is handled and the stream stands on the one after, or the worker stops, at the end of the stream or at a frame whose branch fails |
| MuxLink.Serve | common/mux/server.go:357-378 | the loop handles the frames of the stream one by one under every segmentation; where it looked for the next frame is exactly where the remaining frames start; it stops only at the end or at a frame whose branch fails, in the state that leaves |
| MuxTransfer.Live | common/mux/writer.go:41-132 | everything a writer is given in its life, call by call, and its close: one write on the link per frame, New first with its target and Global ID, then Keep, End last, whose payloads together are what it was given |
| MuxTransfer.MergeOf | common/mux/writer.go:67-83 | under any interleaving of the writes of several writers, the frames of one session are those of its writer in order |
| MuxTransfer.Transfer | common/mux/server.go:357-378 | end to end: whatever several writers are given over their lives, however their writes are interleaved and the bytes cut into buffers, the worker goes through one event per frame of the source, from its old state to its new one; the first frame of a writer announces its target and Global ID, and the outlet it opens, if that accepts and is not taken up by another frame, ends up with what it held and then exactly what that writer was given, and for a plain session closed exactly if the writer was |
| MuxTransfer.Deliver | common/mux/server.go:160-378 | the same by conditions on the surroundings alone: if outlets accept and no two frames find the same XUDP entry, some outlet holds exactly what the writer was given, a new one with nothing before it, or the old one of a re-attached entry behind what that had received; without a Global ID it is closed exactly if the writer was |
| MuxSessions.SessionManager.Allocate | common/mux/session.go:54-73 | refused exactly when AllocateExact says, otherwise a new session under the next id |
| MuxSessions.SessionManager.Remove | common/mux/session.go:88-106 | deletes the id from an open manager |
| MuxSessions.SessionManager.Get | common/mux/session.go:108-118 | finds what the table holds unless the manager is closed |
| MuxSessions.SessionManager.CloseSession | common/mux/session.go:169-202 | the first close counts and removes the session; a second does nothing |
| MuxSessions.SessionManager.CloseIfNoSessionAndIdle | common/mux/session.go:120-136 | closes an open manager only when it is empty and the snapshot matches |
| MuxSessions.SessionManager.Close | common/mux/session.go:138-154 | the loop closes every listed session that was not closed, in any order of the map |
| MuxSessions.TableSound | common/mux/session.go:54-73 | in every run keys are ids, a positive MaxConcurrency bounds the live sessions, a MaxConnection with low bits bounds the sessions made, and ids are distinct exactly up to 2^16 sessions |
| MuxSessions.AllocateExact | common/mux/session.go:54-73 | in every run a session is made exactly if the manager is open, fewer sessions than a positive MaxConcurrency are made and not ended, and fewer were made, modulo 2^16, than the low 16 bits of MaxConnection if these are not 0; its id is the next, and nothing else changes |
| MuxSessions.BurstSucceeds | common/mux/session.go:54-73 | within both limits any number of allocations in a row on a new manager all succeed, with ids from 1 on |
| MuxSessions.EndExact | common/mux/session.go:169-202 | in every run closing a session ends that one and takes its id out of the table, no other; a second close does nothing |
| MuxSessions.CloseAllExact | common/mux/session.go:138-154 | in every run closing the manager ends every listed session, once, and no other, and it never opens again |
| MuxSessions.IdsDistinct | common/mux/session.go:54-73 | no run repeats an id if and only if the low 16 bits of MaxConnection are not 0 |
| MuxSessions.RepeatedId | common/mux/session.go:54-73 | for every other strategy, a run of 2^16 + 1 allocations that does |
| MuxSessions.ClosedOnce | common/mux/session.go:138-202 | each session is closed at most once, an open manager lists exactly those not closed, a closed one has closed them all and stays closed |
| MuxSessions.IdleMeansIdle | common/mux/client.go:225-245 | the idle check closes an open manager exactly if none was live at the snapshot or is now and the sessions made in between are a multiple of 2^16, so none in shorter runs |
| XudpSteps.StepBase | common/mux/server.go:189-256 | every atomic step of attach, close, dispatch failure and reaping, crashes included, keeps what holds in all runs |
| XudpSteps.StepTidy | common/mux/session.go:138-202 | every step other than the close of a session by a manager that is not its parent keeps the order on which the results for orderly runs rest |
| XudpRuns.OneOpenInTable | common/mux/server.go:189-256 | in every reachable state at most one session per Global ID is open, among those of entries in the table |
| XudpRuns.LockExcludes | common/mux/session.go:169-202 | in every reachable state at most one session at a time is being closed under the lock of one manager |
| XudpRuns.OneSessionPerGid | common/mux/server.go:189-256 | in every state that an orderly run reaches at most one session per Global ID is not closed, counting entries long removed |
| XudpFaults.TwoSessions | common/mux/server.go:189-256 | a run that is not orderly and ends with two |
| XudpRuns.KeptExact | common/mux/session.go:235-252 | that every open session of a Global ID belongs to the entry in the table is lost exactly when the reaper takes an entry past its deadline whose session is open |
| XudpRuns.SecondSessionExact | common/mux/session.go:235-252 | until the reaper does that, no run has two open sessions of one Global ID; and it is exactly by such a step that a run with two becomes possible |
| XudpRuns.SecondOpenExact | common/mux/server.go:241-248 | the step that opens the second: it publishes a session while another is open, whose entry has then been removed |
| XudpRuns.EntriesSound | common/mux/session.go:212-252 | in every reachable state an entry of the table is Initializing exactly while one job, and no other, sets it up; otherwise it has a session of its own |
| XudpRuns.RemovedOnlyWhenDone | common/mux/session.go:235-252 | in every run an entry is removed only by the reaper, when it is Expiring and past its deadline, or by its owner's failed dispatch |
| XudpRuns.RemovedWithoutSession | common/mux/session.go:235-252 | in an orderly run the session of what the reaper takes was closed more than a minute ago, and what is removed has no open session |
| XudpRuns.LateCloseIsHarmless | common/mux/session.go:169-202 | in an orderly run an entry turns Expiring only when the close of its current session completes |
| XudpRuns.LateCloseExact | common/mux/session.go:169-202 | in any run, the second half of a close makes an entry with another session expire exactly if the entry is Active then and was given a session since the first half |
| XudpFaults.LateCloseHarms | common/mux/session.go:169-202 | a run in which it does |
| XudpRuns.ListsExact | common/mux/server.go:250-254 | managers list their own sessions exactly until a worker registers a session of another manager |
| XudpRuns.OrderlyIfOwn | common/mux/server.go:250-254 | so a run in which no worker does is orderly |
| XudpRuns.MuxOverRun | common/mux/server.go:235-248 | over any run an entry still points to its session exactly if no step advanced a job at one of the two assignments of a session to that entry |
| XudpRuns.RegistersOwn | common/mux/server.go:240-255 | from the activation of its entry on, the session a worker goes on with is its own exactly if no later step advances a job at one of these assignments on the entry |
| XudpRuns.InstallNeedsAttach | common/mux/server.go:194-209 | which takes another frame with the same Global ID in between |
| XudpFaults.RegistersAnother | common/mux/server.go:240-255 | a run in which a worker is about to register another worker's session |
| XudpFaults.NilParentExact | common/mux/server.go:235-248 | in every run an entry points to a session without parent exactly while a job stands between the two assignments |
| XudpFaults.CrashExact | common/mux/session.go:169-202 | the process dereferences a nil parent exactly when a failed registration is undone at such a moment, or a handler or manager closes a session without parent |
| XudpFaults.NilParentTaken | common/mux/server.go:250-254 | which they are given exactly at such a moment |
| XudpFaults.CrashReached | common/mux/server.go:250-253 | a run that crashes |
| XudpFaults.StaleOnlyByActivation | common/mux/server.go:240-255 | an entry becomes Active with a closed session exactly at an activation whose session is closed already |
| XudpFaults.StaleEntry | common/mux/server.go:240-255 | a run in which that happens |
| XudpFaults.StaleForever | common/mux/session.go:235-252 | in an orderly run such an entry stays as it is, in the table, until a frame with its Global ID arrives |
| Auth.AuthenticationWriter.Seal | common/crypto/auth.go:249-276 | one record, or a refusal after the padding length was drawn |
| Auth.RecordLayout | common/crypto/auth.go:249-276 | a record byte for byte: size, sealed payload, padding; it is sent exactly if all of it fits 8192 bytes |
| Auth.AuthenticationWriter.WriteStream | common/crypto/auth.go:278-310 | non-empty records, none refused, whose payloads are the content; all but the last hold 8192 bytes less overhead, size and the longest padding |
| Auth.AuthenticationWriter.WritePacket | common/crypto/auth.go:312-335 | one record per non-empty packet that fits a buffer with the padding drawn for it, others being dropped; a writer in step stays so exactly if every non-empty packet fits, which is exactly if nothing is lost |
| Auth.RefusedPacketGarbles | common/crypto/auth.go:249-335 | what is sent for a packet of 8191 bytes, which is refused, and the packet 7: under every segmentation it is delivered as 7 and a padding byte |
| Auth.AuthenticationWriter.WriteMultiBuffer | common/crypto/auth.go:338-350 | an empty write is one empty record; a stream write always keeps the writer in step, a packet write exactly if every packet fits |
| Auth.AuthenticationReader.ReadRecord | common/crypto/auth.go:119-204 | on any stream: a payload is delivered exactly if the next record is there whole and opens to it, the end is reported exactly at an empty record, anything else is an error; a soft attempt never touches the reader below and, if it waits, neither loses nor repeats a record whose size was parsed |
| Auth.NextInFront | common/crypto/auth.go:119-204 | in front of records that were written, that is the first of them |
| Auth.AuthenticationReader.ReadMultiBuffer | common/crypto/auth.go:206-226 | one read delivers records in order and ends in front of a record or at the empty one; it takes sixteen, or fewer if the end comes or the next is not all here |
| Auth.ReadToEnd | common/crypto/auth.go:119-226 | for every segmentation, reading to the end returns the payloads of the records up to the empty one, where the end is reported |
| Auth.WriteAndClose | common/crypto/auth.go:278-350 | any list of non-empty writes and then the empty one, in packet mode as long as every packet fits with its own draw: records that hold what was written, and the empty record last |
| Auth.Transfer | common/crypto/auth.go:119-226 | end to end: under every segmentation of these bytes, with anything behind them, and for every padding sequence, reading until the end is reported gives back exactly what was written |
| Nonces.NonceGenerator.Next | common/crypto/auth.go:30-41 | the loop increments the array in place with carry |
| Nonces.FirstAeadNonce | common/crypto/auth.go:43-49 | the first nonce is all zeros |
| Nonces.NthSpells | common/crypto/auth.go:30-41 | the k-th output spells the start plus k modulo 256^n, lowest byte first |
| Nonces.NoncesRepeat | common/crypto/auth.go:30-41 | two outputs are equal exactly if a multiple of 256^n steps lies between them |
| Nonces.NoncesDistinct | common/crypto/auth.go:30-41 | any 256^n consecutive nonces are pairwise distinct |
| DomainMatchers.LabelsInjective | common/strmatcher/domain_matcher.go:5-7 | a domain is determined by its labels |
| DomainMatchers.DomainMatcherGroup.Add | common/strmatcher/domain_matcher.go:20-41 | walks down the labels, creating nodes, and leaves a trie of everything added |
| DomainMatchers.DomainMatcherGroup.Match | common/strmatcher/domain_matcher.go:47-98 | exactly the values of the added patterns that the plain suffix test matches, with multiplicity, longest pattern first, then in order of addition; nothing for the empty domain |
| DomainMatchers.SuffixesAreExpected | common/strmatcher/matchers.go:30-36 | going through the suffixes behind dots is going through the matching patterns by length |
| DomainMatchers.ExpectedHolds | common/strmatcher/matchers.go:30-36 | a value is among those expected exactly if it was added with a pattern that the plain suffix test matches |
| DomainMatchers.LongerFirst | common/strmatcher/domain_matcher.go:86-97 | of two patterns that match the longer ranks first, of two of one length the one added first |
| Resolver.Instance.GetFeature | core/xray.go:38-45 | finds a feature of the type exactly if there is one |
| Resolver.Instance.Split | core/xray.go:330-365 | the loop separates the callbacks that can run from those that wait, losing none |
| Resolver.Instance.RequireFeatures | core/xray.go:279-316 | runs the callback, with everything it sets off, or lets it wait |
| Resolver.Instance.AddFeature | core/xray.go:319-373 | registers the feature and runs every callback that has become ready, re-entrantly; no callback that could run is kept waiting, and it terminates |
| Resolver.Instance.Perform | core/xray.go:279-373 | any sequence of requests, from outside or from a callback, is carried out |
| Resolver.ResolvesLeast | core/xray.go:235-240 | the features of a fresh instance end up as the least set closed under what was requested; the check for unresolved dependencies fires exactly if a required callback has a need outside it |
| Resolver.Happens | core/xray.go:279-373 | every request is accounted for exactly once: as run, as registered or as waiting |
| Resolver.RunsExactly | core/xray.go:279-373 | each callback asked for from outside has run if features of all the types it names are registered in the end, and waits in its list otherwise |
| Resolver.OrderDoesNotMatter | core/xray.go:279-373 | features, callbacks run and callbacks waiting depend on what was requested, not on the order |
| ReplayFilters.ReplayFilter.Check | common/antireplay/replayfilter.go:35-58 | one check sets up or resets a pool and inserts with short circuit; AcceptedExactly says what that means over runs |
| ReplayFilters.ReplayIsRejected | common/antireplay/replayfilter.go:35-58 | in every run whose clock does not go back, a value accepted less than an interval ago is rejected, exactly unless the filter took itself for new since and did not see the value again |
| ReplayFilters.ReplayIsRejectedOffZero | common/antireplay/replayfilter.go:35-58 | with a clock that does not read 0 it is always rejected |
| ReplayFilters.NeverSeenIsAccepted | common/antireplay/replayfilter.go:35-58 | a value never checked before is accepted |
| ReplayFilters.AcceptedExactly | common/antireplay/replayfilter.go:35-58 | in every run whose clock does not read 0, exactly when a check accepts, from the times and values of the checks before it: which intervals since the last swaps hold a check of the value |
| ReplayFilters.ForgottenBehindTwoTurns | common/antireplay/replayfilter.go:47-55 | a value not checked since the last swap but one is accepted |
| ReplayFilters.ForgottenInTime | common/antireplay/replayfilter.go:47-55 | the filter forgets: a value is accepted again if since its last check there was a check an interval later and another an interval after that |
| ReplayFilters.ReplayAtZero | common/antireplay/replayfilter.go:41-45 | the failing run |
| DnsCaches.CacheController.CacheCleanup | app/dns/cache_controller.go:42-72 | the loop drops expired halves of records and empty records, and nothing else |
| DnsCaches.CacheController.UpdateIP | app/dns/cache_controller.go:74-114 | stores the answer, tells the subscribers of its family and of the other if that has an answer |
| DnsCaches.CacheController.FindIPsForDomain | app/dns/cache_controller.go:116-168 | the answer and the extended expiry of what was asked for |
| DnsCaches.LookupSound | app/dns/dnscommon.go:41-62 | no address of an expired record is returned; a lookup succeeds exactly if every family asked for is alive and there is an address; a failed one tells the response codes, or that there is no address, of both families if they differ; the TTL is the time the records have left, rounded up, and at most 300 for two families |
| DnsCaches.QuerySound | app/dns/nameserver.go:219-231 | the same for a query, with the families it wants that are enabled; without any it finds nothing and leaves the cache alone |
| DnsCaches.LookupLeaves | app/dns/dnscommon.go:41-62 | a lookup leaves every record as it is, but for one it used with less than a second to live, which then lives one second |
| DnsCaches.LookupAgain | app/dns/dnscommon.go:41-62 | two lookups less than a second apart give the same addresses and error |
| DnsCaches.UpdateSound | app/dns/cache_controller.go:74-114 | the next lookup of the family finds the update; the other family keeps its answer and is told exactly if it has one; other domains are untouched |
| DnsCaches.CleanedSound | app/dns/cache_controller.go:42-72 | a clean-up leaves no expired record behind and takes no other away |
| DnsCaches.LookupSim | app/dns/cache_controller.go:116-168 | a cleaned and an uncleaned cache answer a lookup for some family alike; for no family, which never comes here, they differ exactly if one has the record |
| DnsCaches.QuerySim | app/dns/nameserver.go:219-231 | a query, narrowed to the enabled families and answered before the cache if none is left, is answered alike by both, and never by indexing an empty list |
| DnsCaches.CleanupIsInvisible | app/dns/dns.go:193-204 | over every sequence of updates, queries and clean-ups in time order, answers, TTLs, errors and published topics are those without the clean-ups |
| Links.BuildVlessValue | v2root/parser.go:788-911 | every parameter of the printed query has the value that the settings give it, the one set last winning |
| Links.BuildTrojanValue | v2root/parser.go:913-1034 | the same for trojan, where only the network in use counts |
| Links.VlessStable | v2root/parser.go:1192-1366 | every accepted vless link prints to an accepted link with the same outbound but for AllowInsecure and the quic header type, and printing is stable |
| Links.TrojanStable | v2root/parser.go:1368-1507 | the same for trojan |
| Links.VlessPrintsNormal | v2root/parser.go:1192-1366 | printing an accepted vless link gives its own parameters back: those that matter for its network and security keep their values, others are dropped, defaults are omitted |
| Links.VlessMeaning | v2root/parser.go:1192-1366 | exactly which vless links are accepted, and every setting of the outbound in terms of the parameters |
| Links.TrojanPrintsNormal | v2root/parser.go:1368-1507 | the same for trojan, with its defaults |
| Links.TrojanMeaning | v2root/parser.go:1368-1507 | the same for trojan |
| VmessLinks.BuildFind | v2root/parser.go:1036-1133 | every member of the printed object has the value set last |
| VmessLinks.VmessStable | v2root/parser.go:1509-1672 | every accepted vmess link prints to an accepted link in normal form, and printing is stable |
| VmessLinks.VmessPrintsNormal | v2root/parser.go:1509-1672 | printing an accepted vmess link gives its own members back in normal form |
| VmessLinks.VmessMeaning | v2root/parser.go:1509-1672 | exactly which vmess links are accepted, and every setting of the outbound in terms of the members |

## Left out

- Sockets, pipes, goroutine scheduling, timers, readv, splice and `UnwrapRawConn`: input and output become parameters.
- Real cryptography, cuckoo filters, regular expressions, URL, base64 and JSON text: abstract operations, sets, or query maps.
- The client side of Mux (`common/mux/client.go`) apart from its session table: its branches are those of the server with less in them.
- MuxSessions.SessionManager.Allocate: the manager's Add, which the server uses with ids chosen by the peer, is not part of this model.
- Vision.TrafficState.XtlsUnpadding: the output is described for buffers of up to 8192 bytes, the size of every pooled buffer.
- Vision.XtlsPadding: contents of up to 8171 bytes; reshaping guarantees that, and the source panics beyond.
- TlsFilter.ServerHelloRecognised: a cipher suite read past the end of the content is an arbitrary 16-bit input; a read past the backing array is not modelled.
- Buffers.Buffer.Extend: the panic beyond the capacity is a precondition.
- MultiBuffers.SplitSize: lists of buffers are values; release and reuse of pooled buffers are not modelled.
- Chunks.ChunkStreamReader.ReadMultiBuffer: the 32-bit wrap-around of the chunk counter is not modelled.
- MuxServer.ServerWorker.HandleFrame: of a frame that is cut off, which ends the connection, only the error is described and not the state left behind.
- MuxLink.Serve: starts from a stream of well-formed frames; on any other stream HandleFrame applies frame by frame.
- Auth.AuthenticationReader.ReadRecord: an end of the stream in front of a record and one inside a record are the same error.
- Auth.Transfer: the n-th cipher, size and padding operation is used for the n-th record on both sides, as an arbitrary lawful sequence.
- XudpSteps.StepBase: a write to `Mux` or `Status` without the lock is one atomic step; the link behind an entry and what flows through it are not part of its state.
- XudpRuns.RemovedOnlyWhenDone: time is in whole seconds.
- Resolver.Instance.AddFeature: a callback does the same actions whenever it runs; features added to a running instance, error returns and the lookup of callback parameters by assignability are not modelled.
- DnsCaches.CleanupIsInvisible: operations are atomic and read the clock once; a clean-up between the two halves of one lookup is not modelled, nor is a TTL beyond 32 bits.
- DnsCaches.CacheController.CacheCleanup: stopping and restarting of the periodic clean-up is not modelled.
- ReplayFilters.ReplayIsRejected: the pools are sets, so false positives and full filters of the cuckoo pools are not modelled.
- Links.VlessStable: addresses, user ids, ports and remarks before and behind the query are not modelled.
- VmessLinks.VmessStable: a JSON number is a natural number or anything else.
- DomainMatchers.DomainMatcherGroup.Add: nodes are positions in a list instead of references.
- Shadowsocks links, the router, the other transports and proxies, the statistics and the file and process side of the C interface: they would only add easier members.
