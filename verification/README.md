# Verified model of rtmp-rs

rtmp-rs is an RTMP server and client. Around its sockets stand a number of small deterministic
machines: the chunk codec, the AMF codecs, the message parser, the stream registry with its GOP
cache, the filter in front of every subscriber, the handshake and the E-RTMP negotiation. This
project states what each of them does, in the form the program has (objects with fields that are
updated in place, loops over buffers), and proves what they are for: that what one side writes the
other side reads, that what holds at the start of a run holds in all of it, and, where the program
falls short of that, exactly when.

`dafny verify dfyconfig.toml` checks everything.

## How the files fit together

Each component comes as functions on values, which say what one call does, as classes or methods
that do it step by step and are proved equal to those functions, and as lemmas about whole runs.

| component | files |
|---|---|
| bytes, integers, buffers | `Bytes.dfy` |
| chunk codec | `ChunkModel.dfy` (functions), `ChunkCodec.dfy` (`ChunkDecoder`, `ChunkEncoder`), `ChunkSafety.dfy` (arbitrary bytes), `ChunkMirror.dfy` (one message), `ChunkSession.dfy` (chunks of many streams interleaved), `ChunkRuns.dfy` (whole runs), `ChunkStreams.dfy` (one stream of a session), `EncoderSession.dfy` (calls of the encoder), `Interleaving.dfy` (plain conditions for interleaved chunks), `ChunkClock.dfy` (times that run backwards) |
| reading loops | `Reading.dfy` and `ServerConnection.dfy` (server), `ClientChunks.dfy` and `ClientReading.dfy` (client) |
| AMF | `Amf.dfy` (values, numbers), `Amf0Model.dfy`, `Amf0Proofs.dfy`, `Amf0Safety.dfy`, `Amf0Codec.dfy`, `Amf0References.dfy` (references), and the same five for AMF3 |
| messages | `MessageModel.dfy`, `MessageProofs.dfy`, `MessageCodec.dfy`, `FullStack.dfy` |
| publish and subscribe | `Gop.dfy`, `RegistryModel.dfy`, `RegistryRuns.dfy`, `Registry.dfy`, `LateJoin.dfy`, `Delivery.dfy` (what a subscriber is sent), `Playback.dfy` (what its player sees) |
| handshake | `HandshakeModel.dfy`, `HandshakeLoops.dfy`, `HandshakeProtocol.dfy` |
| E-RTMP negotiation | `Capabilities.dfy`, `CapabilityAgreement.dfy`, `CapabilityLoops.dfy`, `ConnectFields.dfy` |

## Choices

- Integers are unbounded with explicit ranges; every wrap-around of the program (`u32` timestamps,
  subscriber and lag counts, lengths cast to `u32` or to 24 bits) is written out.
- A double is its eight bytes. The conversions between integers and doubles that the program uses are
  defined on those bytes. UTF-8 validity is defined concretely.
- A hash map that is encoded is the list of its entries in iteration order, so what is proved holds
  for every order.
- Every registry operation runs under the registry's locks and is one step. A broadcast channel is the
  list of the frames sent into it, and a receiver is a position in that list. Time is an arbitrary
  non-decreasing number.
- What a socket delivers is an arbitrary list of pieces; what the rest of the server says to a message
  is an arbitrary function of the messages so far.

## Where the code falls short

- Chunk streams. After an extended timestamp, a regression, an empty payload or a change of message
  stream, encoder and decoder can disagree. `ChunkMirror.Survives` is the sender's test,
  `ChunkMirror.MessageArrives` proves it exact, and `ChunkMirror.WhatArrives` says what comes instead. After
  a change of message stream a message can arrive whole with a wrong time: `ChunkMirror.SwitchShiftsTime`
  has one sent at 30 ms that is received as 40 ms.
- Times that run backwards. A step back on a chunk stream puts the receiver's clock there 2^24 ms ahead, for
  good (`ChunkClock.MessageHeard`, `ChunkClock.AheadForGood`), and a step back by one millisecond makes the
  decoder look for an extended timestamp that is not there. When a paused subscriber resumes, the server sends
  the cached sequence headers again with their old times, which is such a step as soon as a later frame went
  out (`Playback.AscendingUnlessStale`, `Playback.ResumptionIsStale`).
- The limit for the size of a message is above every length that a header can state, so the check for it never
  acts (`ChunkSafety.SizeCheckIsDead`, `Reading.NeverTooLarge`).
- The count of bytes not yet acknowledged is a plain subtraction of two 32-bit counters. It is negative when
  the bytes received passed a multiple of 2^32 since the last acknowledgement
  (`ServerConnection.PlainSubtraction`); the model has it wrap around, as without overflow checks.
- The client's loop decodes once before it waits for the socket. `ClientReading.ClientReadsRun` shows that
  from any buffer it takes the messages in front of the first chunk that does not end its message, and no
  more, whatever whole messages follow; the server takes them all. While it plays it ignores SetChunkSize, and
  it always ignores Abort: what it takes then is in `ClientReading.Takes` and `ClientReading.AbortedDataStays`.
- Connect parameters with two spellings. When a connect object has both, with different values, the order in
  which a hash map is iterated decides (`ConnectFields.OrderDecides`).
- AMF3 objects with an empty key, of any class and anywhere in a session, are cut off there
  (`Amf3Proofs.EmptyKeyCutsObject`).
- `has_complete_gop` can be true with the keyframe evicted; `Gop.CompleteMeansFits` says exactly when. For
  E-RTMP video there are no keyframes at all (`Gop.EnhancedHasNoKeyframes`).
- The AMF3 encoder's object header sets the bit for externalizable objects. Its own decoder does not mind,
  and that is what is proved; conformance of the header to section 3.12 of the AMF3 specification is not.

## Model

| member | source | states |
|---|---|---|
| ChunkCodec.ChunkDecoder.Decode | src/protocol/chunk.rs:107-296 | one call on any buffer does to the stream table and the buffer what `ChunkModel.Decode` says, nothing else |
| ChunkCodec.ChunkDecoder.Abort | src/protocol/chunk.rs:333-338 | the partial message of that stream is dropped, its header memory and all other streams stay |
| ChunkCodec.ChunkDecoder.SetChunkSize | src/protocol/chunk.rs:94-96 | the size is capped at 16 MB and nothing else changes |
| ChunkCodec.ChunkEncoder.Encode | src/protocol/chunk.rs:387-470 | the fragmentation loop appends exactly the chunks of the message, first header compressed against the stream's memory, and updates that memory only |
| ChunkCodec.ChunkEncoder.Reset | src/protocol/chunk.rs:382-384 | all header memory is forgotten, the chunk size stays |
| ChunkSafety.DecodeKeepsInv | src/protocol/chunk.rs:159-296 | on arbitrary bytes every partial message stays empty or shorter than its expected length, which stays within the message size limit |
| ChunkSafety.AbortKeepsInv | src/protocol/chunk.rs:333-338 | an abort keeps that invariant |
| ChunkSafety.EmittedWithinLimit | src/protocol/chunk.rs:203-296 | no message handed out exceeds the limit, and the refusal for size is only given for sizes above it |
| ChunkSafety.SizeCheckIsDead | src/protocol/chunk.rs:263-269 | bytes that are refused for their size exist if and only if the limit is below 2^24 - 1, and the program's limit is not |
| ChunkSafety.LengthsStayShort | src/protocol/chunk.rs:203-263 | every length remembered stays a 24-bit number, on arbitrary bytes |
| ChunkSafety.DecodeIsLocal | src/protocol/chunk.rs:107-296 | a call that consumes nothing changes no stream; one that consumes takes a proper front part and touches the state of its own stream only |
| ChunkSafety.DecodeStable | src/protocol/chunk.rs:138-192 | what a call decides on a buffer it decides with any bytes behind it, and a call that took nothing can be forgotten |
| ChunkMirror.BasicHeaderRoundTrip | src/protocol/chunk.rs:299-330 | every stream id from 2 to 65599 and every format survive the one-, two- and three-byte basic headers |
| ChunkMirror.MessageArrives | src/protocol/chunk.rs:387-470 | a decoder that mirrors the encoder's stream state returns the message after its last chunk if and only if the sender's test `Survives` passes, for all timestamps, and what state it is then in |
| ChunkMirror.ArrivedMirrors | src/protocol/chunk.rs:416-427 | after a surviving message the two states mirror each other again, with the delta the sender can predict |
| ChunkMirror.WhatArrives | src/protocol/chunk.rs:107-296 | for every message, surviving or not: it arrives whole at the time its first header conveys to the decoder, or some header is taken wrongly, and exactly when |
| ChunkMirror.SwitchOfStream | src/protocol/chunk.rs:405-427 | after a chunk stream changed its message stream, a message in the same rhythm arrives whole, stamped with twice the time of the one before it; that is its own time if and only if the change was made after time 0 |
| ChunkMirror.SwitchShiftsTime | src/protocol/chunk.rs:405-427 | three concrete messages at a fresh decoder: each is complete with nothing left over, and the third, sent at 30 ms, is stamped 40 ms |
| ChunkMirror.ExtendedStart | src/protocol/chunk.rs:461-463 | a first message at an extended timestamp survives if and only if it fits one chunk |
| ChunkRuns.StepArrives | src/protocol/chunk.rs:107-296 | the invariant of a session: after every chunk sent, in any interleaving of streams, each stream of the encoder is untouched or mirrored by the decoder, and the message the chunk ended is logged |
| ChunkRuns.RunArrives | src/protocol/chunk.rs:107-296 | over every legal run of starts, continuations, resets, announced chunk sizes and aborts the receiver logs exactly the messages ended, in order, and empties its buffer |
| ChunkRuns.SessionArrives | src/server/connection.rs:502-593 | the same for every way the bytes are cut into reads |
| ChunkStreams.StreamsAreIndependent | src/protocol/chunk.rs:333-338 | per chunk stream, the messages logged are those started, in order, without exactly the ones an abort hit and the one under way, whatever happens on other streams |
| EncoderSession.SessionRoundTrip | src/protocol/chunk.rs:382-470 | round trip of every session of encoder calls that pass the sender's test, under every fragmentation, with chunk sizes put into force after their announcement |
| EncoderSession.PlainSessionRoundTrip | src/protocol/chunk.rs:382-470 | the same under conditions an application can keep in mind: times below the extended range that never run backwards per chunk stream, non-empty payloads under 16 MB, message streams changed only after time 0 |
| Interleaving.PlainInterleaving | src/protocol/chunk.rs:107-296 | demultiplexing under the plain conditions: every interleaving of single chunks of any streams, in any fragmentation, gives exactly the messages ended, and per stream the messages started on it but for aborted ones and the one under way |
| ChunkClock.MessageHeard | src/protocol/chunk.rs:387-470 | a message under the plain conditions but for the order of times arrives whole, at its time plus 2^24 for every step back on its chunk stream since the last full header, or, if it steps back by one millisecond, is not taken; the two sides stay in step but for the clock |
| ChunkClock.RunHeard | src/protocol/chunk.rs:107-296 | over every run of such messages on any chunk streams the reading loop logs all of them with those times |
| ChunkClock.SessionHeard | src/server/connection.rs:502-593 | the same for a whole connection, under every fragmentation |
| ChunkClock.HeardAsSent | src/protocol/chunk.rs:387-470 | the times received are those sent if and only if no time on any chunk stream steps back |
| ChunkClock.PlainIsExact | src/protocol/chunk.rs:387-470 | of the plain conditions the order of times is necessary: the encoder calls are plain if and only if no time steps back |
| ChunkClock.AheadForGood | src/protocol/chunk.rs:233-247 | after a step back, every later message on that chunk stream is 2^24 ms ahead, until the message stream changes or a time steps back again |
| Reading.FragmentationIndependence | src/server/connection.rs:502-578 | for every byte string and every split, reading piecewise gives the same messages, decoder state, residual bytes and first error as one read, with SetChunkSize and Abort applied between messages |
| Reading.ReadStepIsDrain | src/server/connection.rs:513-570 | one pass of the server's loop followed by a drain is the drain of the longer buffer |
| Reading.NeverTooLarge | src/server/connection.rs:502-578 | whatever is sent to a connection, in whatever pieces, it is never closed for the size of a message |
| ServerConnection.Connection.DrainBuffer | src/server/connection.rs:512-538 | the loop terminates with the buffer length as measure and does what `Drain` says |
| ServerConnection.Connection.TakeMessages | src/server/connection.rs:562-570 | the loop behind a read does what `DrainMessages` says |
| ServerConnection.Connection.ReadAndProcess | src/server/connection.rs:502-578 | one pass does what `ServerConnection.Pass` says: drain, end on an empty read, count the bytes, take messages, acknowledge |
| ServerConnection.Connection.HandleChunk | src/server/connection.rs:581-604 | SetChunkSize without its top bit, Abort and the window act at once; all else is left to the rest of the server |
| ServerConnection.PassesRead | src/server/connection.rs:502-578 | passes deal with messages as the reading loop does, so all that is proved of it holds of them |
| ServerConnection.AcknowledgedInTime | src/session/state.rs:147-158 | after every pass that goes well fewer bytes than the window known before it are unreported, or none |
| ServerConnection.AcknowledgedAlways | src/server/connection.rs:559-575 | over every run, in any pieces, all bytes read are counted, the last acknowledgement said how many they were then modulo 2^32, and at most one window is unreported |
| ServerConnection.PlainSubtraction | src/session/state.rs:151 | the subtraction is negative if and only if the count passed a multiple of 2^32 since the last acknowledgement |
| ClientReading.ClientReadsRun | src/client/connector.rs:512-525 | in any linked session, with any legal run of chunks and part of another in the buffer, what the client takes, also when it ignored a SetChunkSize before: the messages in front of the first chunk that does not end its message or that its own chunk size cuts shorter, and which message it garbles if its chunk size is the larger one |
| ClientReading.TakesLeading | src/client/connector.rs:512-525 | it takes all the messages in front of the first chunk that does not end its own if and only if its chunk size cuts the chunks it looks at as the sender did |
| ClientReading.ObeyedIsAlike | src/client/connector.rs:481-483 | so it does when every size announced among them is obeyed or the one in force |
| ClientReading.ClientMayWait | src/client/connector.rs:512-525 | on the same buffer the server takes all messages; the client takes all of them if and only if its size cuts alike and none ends behind that chunk, and else waits with whole messages there |
| ClientReading.OneMessage | src/client/connector.rs:512-525 | with the bytes of one message in the buffer, the client takes it if and only if it fits one chunk |
| ClientReading.AbortedDataStays | src/protocol/chunk.rs:276-294 | what a client holds of a message whose abort it ignored is in front of the next message completed on that chunk stream |
| Amf.U32ThroughF64 | src/protocol/message.rs:244-259 | every u32 survives the conversion to a double and back |
| Amf0Codec.Amf0Decoder.Decode | src/amf/amf0.rs:91-105 | the recursive decoder with cursor, reference table and depth counter does what `Amf0Model.Decode` says |
| Amf0Codec.Amf0Decoder.DecodeAll | src/amf/amf0.rs:108-114 | likewise for all values of a buffer |
| Amf0Codec.Amf0Encoder.Encode | src/amf/amf0.rs:419-506 | appends the encoding of the value to what was there |
| Amf0Codec.Amf0Encoder.EncodeAll | src/amf/amf0.rs:509-513 | appends the encodings in order |
| Amf0Proofs.RoundTrip | src/amf/amf0.rs:91-344 | from any decoder state and with any bytes behind, a value that fits comes back normalised, or is refused as too deep exactly if it exceeds the remaining depth |
| Amf0Safety.ExactRoundTrip | src/amf/amf0.rs:419-521 | a value comes back normalised with the trailing bytes untouched if and only if it fits the format (UTF-8, non-empty distinct keys of 16-bit length) and is at most 64 deep |
| Amf0Safety.TooDeepIsRefused | src/amf/amf0.rs:96-99 | a fitting value deeper than 64 gives NestingTooDeep |
| Amf0Safety.ListRoundTrip | src/amf/amf0.rs:108-114 | `decode_all` undoes `encode_all`, reference table included |
| Amf0Safety.DecodeSound | src/amf/amf0.rs:91-146 | on arbitrary bytes, lenient or strict: what is left is a suffix, the reference table only grows at its end, the depth returns to what it was except one more on NestingTooDeep, and decoded values are fitting ones |
| Amf0References.ContainerTakesSlot | src/amf/amf0.rs:172-344 | on any bytes, a container that decodes puts its value into the table entry that was next when its marker was read |
| Amf0References.TableAtCall | src/amf/amf0.rs:172-344 | on any bytes, lenient or strict, from any state: whenever a value starts to be read, the table holds the entries from before, Null for every container still open around it and the finished value for every other container opened so far, in pre-order |
| Amf0References.TableIsContainers | src/amf/amf0.rs:108-114 | after all values are read the table holds the value of every container opened, in pre-order |
| Amf0References.ReferenceLaw | src/amf/amf0.rs:287-298 | a reference anywhere in any data yields the finished value of the container opened in that pre-order position, Null if that container is still open around it, or InvalidReference if there is none |
| Amf0Safety.ReferenceYieldsContainer | src/amf/amf0.rs:287-298 | the case of a reference behind one encoded value, with the containers of that value listed |
| Amf3Codec.Amf3Decoder.Decode | src/amf/amf3.rs:97-111 | the decoder with its string, object and trait tables does what `Amf3Model.Decode` says |
| Amf3Codec.Amf3Decoder.ReadU29 | src/amf/amf3.rs:354-377 | the loop over at most four bytes computes the variable-length integer |
| Amf3Codec.Amf3Decoder.ReadString | src/amf/amf3.rs:380-407 | inline strings are entered into the table unless empty, references are looked up |
| Amf3Codec.Amf3Encoder.Encode | src/amf/amf3.rs:438-515 | appends the encoding and updates the interning map |
| Amf3Codec.Amf3Encoder.WriteString | src/amf/amf3.rs:538-555 | a known string becomes a reference, a new one is interned and written |
| Amf3Proofs.U29RoundTrip | src/amf/amf3.rs:517-535 | every 29-bit integer is read back from what is written, one to four bytes |
| Amf3Proofs.SignExtension | src/amf/amf3.rs:137-146 | the signed range of 29 bits survives the cut to 29 bits and the sign extension |
| Amf3Proofs.StringRoundTrip | src/amf/amf3.rs:380-407 | a string comes back and encoder map and decoder vector stay inverse to each other |
| Amf3Proofs.RoundTrip | src/amf/amf3.rs:97-345 | from any pair of tables that mirror each other a fitting value comes back normalised and the tables mirror each other again, or the value is refused as too deep |
| Amf3Proofs.SessionRoundTrip | src/amf/amf3.rs:438-555 | one encoder session of any values in any key order, read by a fresh decoder, gives the normalised values and consumes all bytes, or NestingTooDeep exactly if one of them is deeper than 64 |
| Amf3Proofs.EmptyKeyCutsObject | src/amf/amf3.rs:283-291 | from any pair of tables that mirror each other and with any bytes behind, an object of any class with an empty key comes back as the entries before that key, which is never what was written, with bytes left in front of what follows |
| Amf3Safety.DecodeSound | src/amf/amf3.rs:97-135 | on arbitrary bytes: a suffix is left, the three tables only grow at their ends, and the depth is as on entry, but for NestingTooDeep |
| Amf3References.TablesAtRead | src/amf/amf3.rs:155-345 | on any bytes and from any state: at every read the three tables hold, behind the entries from before, one entry for everything read in line so far, in order, with Null for the containers still open; and so at the end |
| Amf3References.ObjectReferenceLaw | src/amf/amf3.rs:160-265 | a reference in place of a value, anywhere, yields the entry from before the run, the finished value in that position, Null while that container is open, or InvalidReference |
| Amf3References.StringReferenceLaw | src/amf/amf3.rs:380-407 | likewise for a string, which is the one read in line in that position |
| Amf3References.TraitReferenceLaw | src/amf/amf3.rs:231-280 | likewise for the trait of an object |
| MessageProofs.MessageExact | src/protocol/message.rs:363-671 | a message comes back from its payload, up to AMF0 normalisation, if and only if it is representable: chunk sizes of 31 bits, no unknown type or event that uses a known code, no short unknown event, AMF values that fit |
| MessageProofs.CommandExact | src/protocol/message.rs:492-531 | the command part of that, with a single decoder over name, transaction id, object and arguments |
| MessageProofs.DataExact | src/protocol/message.rs:534-558 | the data message part of that |
| MessageProofs.EventExact | src/protocol/message.rs:458-489 | the user control part of that, for all eight kinds of events |
| MessageCodec.FromChunk | src/protocol/message.rs:363-455 | the parsing of every message type, errors included, computes `MessageModel.Parse` |
| MessageCodec.ParseCommand | src/protocol/message.rs:492-531 | likewise, with the loop that ends at a value cut off |
| MessageCodec.EncodeMessage | src/protocol/message.rs:561-692 | type and payload as `MessageModel.Encode` says |
| FullStack.ControlAgrees | src/server/connection.rs:581-593 | the inline treatment of control messages in the reading loop is the one their parsed form calls for |
| FullStack.StackRoundTrip | src/protocol/message.rs:363-692 | representable messages, encoded, cut into chunks, fragmented anyhow, reassembled and parsed, are the messages sent up to AMF0 normalisation, in order, and no byte is left, for every server that handles those messages |
| FullStack.PlainStackRoundTrip | src/protocol/message.rs:363-692 | the same under the plain timestamp conditions |
| Gop.GopBuffer.Push | src/media/gop.rs:82-109 | eviction loop, running size and flag change as `Gop.Apply` says; false exactly for a frame larger than the buffer |
| Gop.GopBuffer.DropFrames | src/media/gop.rs:112-116 | frames, size and flag are emptied, headers stay |
| Gop.GopBuffer.Clear | src/media/gop.rs:119-124 | the headers go as well |
| Gop.GopBuffer.SetVideoHeader | src/media/gop.rs:64-66 | the header is replaced and nothing else |
| Gop.GopBuffer.SetAudioHeader | src/media/gop.rs:69-71 | likewise |
| Gop.GopBuffer.IsReady | src/media/gop.rs:149-151 | a video header is set and a keyframe was pushed |
| Gop.ReadyMeans | src/media/gop.rs:149-151 | over every history, the buffer is ready if and only if a video header was set since everything was cleared and a keyframe pushed since the frames were, and what it then hands out begins with a keyframe if and only if everything since fits |
| Gop.GopBuffer.GetCatchupData | src/media/gop.rs:156-176 | the cached headers, then all buffered frames in order |
| Gop.FittingIsLongest | src/media/gop.rs:86-104 | eviction from the front leaves the longest suffix that fits |
| Gop.CacheRefinesHistory | src/media/gop.rs:82-116 | after any pushes and clears, oversize frames included, the deque is the longest suffix that fits of the frames since the last keyframe or clear |
| Gop.CompleteMeansFits | src/media/gop.rs:86-104 | once a keyframe was pushed, it is still at the front if and only if everything since it fits |
| Gop.EnhancedHasNoKeyframes | src/media/flv.rs:260-264 | with E-RTMP tags only the flag is never set and the frames start wherever the size limit cuts |
| StreamRegistry.StreamEntry.UpdateCaches | src/registry/entry.rs:129-150 | headers are overwritten and video data goes into the GOP buffer as the value function says |
| StreamRegistry.StreamEntry.GetCatchupFrames | src/registry/entry.rs:92-114 | metadata, video header, audio header, then the cached frames |
| StreamRegistry.StreamRegistry.RegisterPublisher | src/registry/store.rs:54-98 | the whole new registry, for a new stream, one taken over and one refused |
| StreamRegistry.StreamRegistry.UnregisterPublisher | src/registry/store.rs:105-144 | only the publisher itself leaves; grace period or idle by the subscriber count |
| StreamRegistry.StreamRegistry.SubscribeTo | src/registry/store.rs:150-182 | position in the channel, catch-up and new count are taken in one step |
| StreamRegistry.StreamRegistry.UnsubscribeFrom | src/registry/store.rs:185-196 | the count goes down, modulo 2^32 |
| StreamRegistry.StreamRegistry.BroadcastFrame | src/registry/store.rs:203-216 | caches and channel both get the frame, nothing else changes |
| StreamRegistry.StreamRegistry.RunCleanup | src/registry/store.rs:293-338 | exactly the expired streams go |
| RegistryRuns.DoKeepsInv | src/registry/store.rs:54-338 | every operation keeps the invariant: active if and only if a publisher is set, a disconnect time on every other entry, channels not shared, caches equal to what the channel's history says |
| RegistryRuns.AlwaysInv | src/registry/store.rs:54-338 | hence it holds in every state of every run |
| RegistryRuns.PublisherStays | src/registry/store.rs:54-144 | a publisher is displaced only by its own unregister, and meanwhile every registration is refused |
| RegistryRuns.DisconnectTimeIsHonest | src/registry/store.rs:105-144 | the disconnect time of a stream without publisher is when its last publisher left, it was free on the same channel ever since, and it is in its grace period if and only if it had subscribers then |
| RegistryRuns.RemovedOnlyWhenExpired | src/registry/store.rs:293-338 | a stream disappears only by a cleanup, after being free continuously for strictly longer than the timeout of its state |
| RegistryRuns.CountIsBalance | src/registry/store.rs:150-196 | in every run the subscriber count is the accepted subscriptions less the unsubscriptions since the stream was created, modulo 2^32 |
| RegistryRuns.KeptUnlessCleaned | src/registry/store.rs:293-338 | a stream whose publisher left is still there on its channel if and only if no cleanup came later than the timeout of the state in which the departure left it |
| RegistryRuns.ReturnInTime | src/registry/store.rs:54-98 | a publisher that registers within that timeout gets the same channel, caches and subscribers |
| LateJoin.NoGapNoDuplicate | src/registry/store.rs:150-216 | in every run, for a subscriber joining at any step, cached video followed by live video is one contiguous end of the channel's video history, it starts at the last keyframe whenever all since then fits, and the headers before it are the latest sent |
| LateJoin.HistoryGrows | src/registry/entry.rs:124-126 | what was sent into a channel is never changed, by no step, not even after the stream is removed |
| Delivery.DeliveryFilter.Handle | src/server/connection.rs:255-276 | one event of the main loop changes the subscriber's fields and sends frames and notices as `Delivery.React` says |
| Delivery.DeliveryFilter.HandleLag | src/server/connection.rs:360-396 | every lag counts, only a significant one starts skipping or disconnects |
| Delivery.DeliveryFilter.SendBroadcastFrame | src/server/connection.rs:1817-1878 | what is sent and how the skipping flags change, for each kind of frame |
| Delivery.DeliveryFilter.DoPause | src/server/connection.rs:1190-1217 | pausing sends the status and StreamDry; when paused already nothing happens |
| Delivery.DeliveryFilter.DoUnpause | src/server/connection.rs:1220-1280 | resuming starts skipping of video and audio and sends the status, StreamBegin and the media headers, in this order; when not paused nothing happens |
| Delivery.FilterIsHistory | src/server/connection.rs:1817-1878 | over every run a received frame is sent if and only if, by the history of events alone, it is not received in a pause, video data has no significant lag or resumption since the last key frame or header received unpaused, and audio no resumption since then; the notices go out exactly when a pause begins or ends, and nothing after a disconnect |
| Delivery.StateIsHistory | src/server/connection.rs:255-276 | pause, skip and lag fields mean what the history says, and the subscriber is connected if and only if no lag was one too many |
| Delivery.SkipAudioImpliesSkipping | src/server/connection.rs:1220-1230 | in every state of every run audio is held back only while video is |
| Delivery.DisconnectedWasSlow | src/server/connection.rs:360-396 | a disconnect implies the maximum number of lags, the last one significant, with no live frame in between |
| Delivery.KeepsUp | src/server/connection.rs:255-276 | without pause and significant lag everything received is sent, in order |
| Playback.AscendingUnlessStale | src/server/connection.rs:1220-1280 | for every run of events whose frames come in order of time, what is sent is in order on every chunk stream if and only if no resumption sends a cached header again that is older than something sent before |
| Playback.PlaybackIsPlain | src/server/connection.rs:1768-1906 | the messages of a run, on the chunk streams for video, audio, commands and control, are plain calls of the encoder under the same condition |
| Playback.PlaybackHeard | src/server/connection.rs:1768-1906 | from the first call on a connection through a subscriber's run to its player, under every fragmentation: every message arrives, with the times sent if and only if no resumption is stale, and otherwise 2^24 ms ahead after each stale header |
| Playback.ResumptionIsStale | src/server/connection.rs:1247-1266 | a concrete run with all times in order that a single pause makes stale |
| HandshakeModel.Handshake.Start | src/protocol/handshake.rs:100-126 | C0 and C1 for the client, nothing yet for the server |
| HandshakeModel.Handshake.Receive | src/protocol/handshake.rs:133-239 | state, packets, response and consumed bytes for both roles; versions below 3 are refused |
| HandshakeLoops.ServerHandshake | src/server/connection.rs:430-474 | for arbitrary bytes in arbitrary pieces: done if and only if 3073 bytes with a version of at least 3 came, the rest is kept in order, the answer is S0, S1 and the echo of C1 |
| HandshakeLoops.ClientHandshake | src/client/connector.rs:134-169 | likewise for the client, which answers with the echo of S1 |
| HandshakeProtocol.NextKeepsInv | src/protocol/handshake.rs:82-239 | every step of either process keeps the invariant: no byte lost, doubled or reordered between the two sides, both queues and buffers included |
| HandshakeProtocol.NoDeadlock | src/protocol/handshake.rs:81-97 | in every reachable state in which a side is not done some side can go on |
| HandshakeProtocol.IterationsDecrease | src/protocol/handshake.rs:81-97 | every iteration of a loop lowers a measure that nothing raises |
| HandshakeProtocol.HandshakeCompletes | src/protocol/handshake.rs:133-292 | under every scheduling and fragmentation there are at most 6147 iterations, no side rejects the other, nothing can go on exactly when both are done, each side then has the other's packet, has taken exactly 3073 bytes and keeps all later ones in order, and C2 and S2 equal S1 and C1 outside bytes 4 to 8 |
| Capabilities.IntersectLaws | src/protocol/enhanced.rs:270-306 | intersection is commutative, associative and absorbs a second one, and leaves no codec without capability |
| Capabilities.VideoInverse | src/media/fourcc.rs:138-153 | the video codec names are parsed back, and nothing else is |
| Capabilities.AudioInverse | src/media/fourcc.rs:249-265 | the same for audio |
| CapabilityAgreement.InfoMapBack | src/protocol/message.rs:244-314 | an info map with its entries in any order reads back as the codecs written into it |
| CapabilityAgreement.CarriedBack | src/protocol/message.rs:278-331 | capabilities read back as they were written into the fields, in any order |
| CapabilityAgreement.ObjectOverTheWire | src/client/connector.rs:195-213 | the command object with these fields goes through AMF0 unchanged |
| CapabilityAgreement.Agreement | src/server/connection.rs:749-826 | for all configurations and all nine mode combinations one side rejects exactly if one insists on E-RTMP and the other refuses it, and otherwise both end with the same result: none if either is legacy, the intersection if not |
| CapabilityLoops.IntersectCaps | src/protocol/enhanced.rs:270-306 | the loops over the codec maps, in any order, compute the intersection |
| CapabilityLoops.AddErtmpFields | src/client/connector.rs:246-299 | the client's fields carry its capabilities and the list names every codec; nothing else is added, so the object is one that `Agreement` speaks of |
| CapabilityLoops.BuildProperties | src/protocol/message.rs:819-873 | the server's answer carries the negotiated capabilities, no E-RTMP field without them and nothing else, so it is one that `Agreement` speaks of |
| CapabilityLoops.Negotiation | src/client/connector.rs:195-341 | from the connect command to its result with the objects both sides build, through AMF0: who rejects, and that otherwise both end with the same capabilities |
| ConnectFields.ParseConnect | src/protocol/message.rs:165-224 | the loop over the connect object gives every parameter the value of the last entry for it, under either spelling, or its default, and keeps all other entries |
| ConnectFields.EnhancedAgrees | src/protocol/message.rs:208-219 | the E-RTMP fields it finds are those that the negotiation reads, whatever their order |
| ConnectFields.OrderDecides | src/protocol/message.rs:170-206 | the order of the entries decides a parameter if and only if entries for it have different values |
| CapabilityLoops.ToEnhancedCapabilities | src/protocol/message.rs:278-331 | info maps by known names, the plain list only when there is no info map |

## Left out

- Amf3Proofs.SessionRoundTrip: the condition that values fit is sufficient; that it is necessary is proved only for empty keys, and only for the object that has one, because bytes after a cut may happen to decode to anything. It also asks that the session interns no more than 2^28 strings, the range of a string reference.
- EncoderSession.SessionRoundTrip: chunk size 0 is excluded, because the encoder's loop does not terminate for it.
- Reading.FragmentationIndependence: what the server does with a message besides control of the chunk layer is one arbitrary predicate of the messages so far.
- LateJoin.NoGapNoDuplicate: for a receiver that the broadcast channel does not report as lagging; after a lag the filter of `Delivery` applies.
- CapabilityAgreement.Agreement: the application's own accept or reject of a connection is not part of it, and the fields outside E-RTMP are any strings, numbers and booleans.
- HandshakeProtocol.HandshakeCompletes: the random bytes and times of the packets are arbitrary inputs.
- ClientReading.ClientReadsRun: a message that does not parse ends the client's reading, which is not followed, nor is what the client makes of the bytes behind a garbled message; buffers are excluded in which it looks at a chunk stream on which it ignored an abort, for which `ClientReading.AbortedDataStays` says less.
- ServerConnection.AcknowledgedAlways: that a single read stays below 2^32 less the window is assumed, as is that the 64-bit count of bytes does not overflow.
- Playback.PlaybackHeard: media times below the extended range, messages under 16 MB, a connection that plays for the first time, and no stale header older by exactly one millisecond than the last frame of its kind; `ChunkClock.MessageHeard` says what that one does.
- Sockets, TLS, tasks, timeouts, flushing and logging.
- The broadcast channel's implementation, its capacity, and when it reports a lag.
- Handler callbacks, authorisation results, builders, statistics, error texts.
- The subscriber count as the number of live subscribers: streams that are removed and created again, and sessions that play twice, break it (`RegistryRuns.CountIsBalance` says what it counts).
- Status and user control messages outside pause and resumption, such as those at the start and end of a stream.
- Recursion depth as stack use; the depth counter itself is modelled.
- Capacity and aliasing of byte buffers, reference counting of payloads.
- FLV, AAC, H.264 and E-RTMP tag parsing beyond the key frame test, URL parsing.
- `TimestampNormalizer`, `CommandSequence` and encoder detection, which enforce nothing in a session.
- `handle_metadata`, `deleteStream` and `closeStream`, which the code does not connect to the registry.
