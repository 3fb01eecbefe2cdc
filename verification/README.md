# A verified model of tentacle

A Dafny model of the core of the vendored `tentacle` network stack and of the connector's session index, with proofs about
whole runs of it. `dafny verify dfyconfig.toml` checks the project.

Code that works by changing things in place is modelled twice: as a class with the source's fields, loops and early returns,
and as a function on values that the class is proved to compute. The theorems are about those functions. What the outside world
answers (is the transport ready, is a channel full or gone, when does a flag turn true, in which order does a hash map iterate)
is a parameter of the step, so a statement about all runs is a statement about all such answers.

## Parts

- **Yamux frames** (`YamuxFrame`, `YamuxFrameCodec`, `YamuxWire`): the twelve byte header, the incremental decoder with
  its parked header, and the encoder. Decoding does not depend on how the bytes were cut up, and decoder and encoder are
  inverse to each other.
- **Yamux streams** (`YamuxStream`, `YamuxStreamHandle`, `YamuxHandle`, `YamuxOwner`, `YamuxEnding`, `YamuxReopen`,
  `YamuxLoss`, `YamuxPast`): the eight-state machine, two 32-bit credit windows and the read buffer of a handle.
  `YamuxHandle` adds the handle's channel and its history and lets an arbitrary peer and owner act on it; `YamuxOwner`
  says what the owner is told; `YamuxEnding`, `YamuxReopen`, `YamuxLoss` and `YamuxPast` are about the ways a handle
  comes to its end.
- **Two sessions** (`YamuxSession`, `YamuxSessionObject`, `YamuxPair`, `YamuxPairUse`, `YamuxOrder`, `YamuxSystem`,
  `YamuxDistribute`, `YamuxTheorems`, `YamuxDelivery`, `YamuxLimits`, `YamuxService`, `YamuxSynOrder`, `YamuxPrefix`,
  `YamuxTable`, `YamuxFinish`, `YamuxOrphan`, `YamuxReuse`): a client and a server over FIFO transports, each with its
  stream table, queues and go-away flags. `Run` applies any list of steps of either side. The proof looks at the system
  one stream at a time: `Proj` cuts out the two handles of a stream and the frames between them, and every step of a
  session is, for every stream, a step of that pair or nothing.
- **Secio** (`SecioSupport`, `SecioHandshake`, `SecioNonce`, `SecioStream`, `SecioStreamObject`): choosing algorithms
  from two propositions, the proposition messages, the nonce counter and the encrypted stream. Hash, cipher and UTF-8
  conversion are parameters; of the cipher and the conversion only that they invert is assumed, as a hypothesis of each
  theorem.
- **Molecule and discovery** (`Molecule`, `MoleculeVerify`, `MoleculeEncode`, `MoleculeWide`, `Discovery`): the
  generated readers and builders follow one template per kind of type, so the model has the schema as data and proves
  verification and round trip for every schema. The discovery and handshake messages are instances.
- **Multiaddr** (`MultiaddrProtocol`, `MultiaddrWire`, `Multiaddr`): binary components, and addresses that are
  components one after another.
- **Tentacle sessions** (`TentacleBuffer`, `TentacleSession`, `TentacleObjects`, `TentacleProofs`, `TentacleTheorems`,
  `TentacleService`, `TentacleCallbacks`, `TentacleReports`): the table of protocols and substreams, the counter of
  pending bytes spread over service, session and substreams, and the callbacks of a protocol handle.
- **Connector** (`SharedState`): the session table and its index by peer.

## What the proofs showed about the code

- A handle that has sent FIN and then receives one becomes Closed without any event, and dropping a Closed handle is
  silent: its entry stays in the session's table until the session ends or a further frame of the stream arrives
  (`YamuxTable.EntriesAreAccountedFor`, `YamuxOrphan.OrphanStaysIff`, `YamuxOrphan.OrphanIsLeft`).
- The branch of `poll_read` marked as unreachable is reached in two situations, a second shutdown with bytes still
  buffered and a data frame that carries FIN or RST; between two sessions running this code only the first one arises
  (`YamuxEnding.ReadsSilentlyIff`, `YamuxTable.SilentReadsInRuns`).
- A handle whose entry is removed while it still receives can write behind its own FIN, and a session removes an entry
  that early when its peer uses a stream id again (`YamuxReopen.DataFollowFinIff`, `YamuxReopen.WritesAgainIff`,
  `YamuxReuse.ReusedIdWritesBehindFin`); between two sessions running this code it does not happen
  (`YamuxTable.NoEntryGoesEarly`).
- A read of a handle whose own session was dropped can take bytes from the buffer and fail, so later reads skip them
  (`YamuxLoss.ReadLosesIff`, `YamuxLoss.DroppedSessionSkips`).
- `poll_read` of the encrypted stream with no room at the destination replaces unread bytes by the next frame; this is
  the only read that loses bytes (`SecioStream.ReadConserves`).
- If the two order hashes of a handshake are equal, both sides prefer the other's list and may choose differently; both
  refuse later, when they split the key (`SecioHandshake.TieAgreesIff`, `SecioHandshake.HalvesCross`).
- An address whose code or length varint overflows its width is accepted; `replace`, and collecting its components, then
  change bytes that were not asked for (`Multiaddr.CollectingRebuildsIff`, `Multiaddr.ReplaceIsLocalIff`). The same
  holds for the code of a hash (`MultiaddrWire.HashIff`).
- A SYN at a limit for an id whose channel is full is refused and put back, so it is refused once more in a later pass
  (`YamuxLimits.PutBackSynIsRefused`).
- Adding the same session id to the connector's index with two different peers leaves an entry behind on removal
  (`SharedState.RemovalIsExactIff`).
- The pending counter is never lowered for bytes that are dropped; it is the queued bytes plus all bytes ever dropped
  (`TentacleTheorems.CounterNeverWraps`).

## Model

| member | source | states |
|---|---|---|
| `YamuxFrame.ChunkingIsInvisible` | tentacle/yamux/src/frame.rs:259-332 | for every way of cutting a byte stream into chunks, decoding chunk by chunk with the parked header gives the same frames and the same first error as decoding it in one piece |
| `YamuxFrame.EncodedFramesArrive` | tentacle/yamux/src/frame.rs:259-350 | the encodings of any frames within the size limit, cut up in any way, decode to exactly those frames with nothing left over |
| `YamuxFrame.DrainIsExact` | tentacle/yamux/src/frame.rs:259-350 | conversely the decoder invents and loses nothing: what it yields re-encodes to exactly what it consumed, for arbitrary input |
| `YamuxFrame.DrainSplits` | tentacle/yamux/src/frame.rs:263-331 | decoding `a + b` is decoding `a` and then `b` behind what `a` left over, whether or not a header was parked in between |
| `YamuxFrame.NeedMoreResumes` | tentacle/yamux/src/frame.rs:311-321 | a decoder that asked for more bytes continues as if it had not been asked before |
| `YamuxFrame.EncodedFrameDecodes` | tentacle/yamux/src/frame.rs:336-350 | one encoded frame is decoded back in front of any further bytes |
| `YamuxFrame.HeaderRoundTrip` | tentacle/yamux/src/frame.rs:273-309 | a header within the limit survives its twelve bytes, whatever follows them |
| `YamuxFrame.FlagsToAndBack` | tentacle/yamux/src/frame.rs:178-210 | the 16-bit field of a flag record gives the record back |
| `YamuxFrame.FlagsFromAndBack` | tentacle/yamux/src/frame.rs:178-210 | and every 16-bit number is the field of the record read from it, unassigned bits included |
| `YamuxFrameCodec.FrameCodec.Decode` | tentacle/yamux/src/frame.rs:263-331 | the method that parks a header and takes from the buffer does exactly one step of the decoder whose chunk independence is proved |
| `YamuxFrameCodec.FrameCodec.DecodeAll` | tentacle/yamux/src/frame.rs:259-332 | calling it until it wants more or fails is the drain of that decoder |
| `YamuxFrameCodec.FrameCodec.Encode` | tentacle/yamux/src/frame.rs:336-350 | appends exactly the encoding that the decoder inverts |
| `YamuxWire.FrameOnWire` | tentacle/yamux/src/frame.rs:336-350 | every well-formed frame is twelve bytes, version zero, type 0 to 3, flags with SYN 1, ACK 2, FIN 4 and RST 8, stream id and length most significant byte first, and then its body |
| `YamuxWire.DecodeFails` | tentacle/yamux/src/frame.rs:263-309 | the decoder refuses exactly a version other than zero, an unknown type and data beyond the limit, with the error naming it, and takes exactly the header |
| `YamuxWire.HeadersOnWire` | tentacle/yamux/src/frame.rs:22-75 | the headers the constructors build: pings and go-aways on stream zero, go-away codes 0, 1 and 2, the initial window of 262144 |
| `YamuxStream.UpdateIsExact` | tentacle/yamux/src/stream.rs:144-159 | while window plus buffer stay within the maximum, the u32 subtractions and the addition of a window update do not wrap; what is announced is the free space not yet promised, and an update is suppressed exactly below half with no flags due |
| `YamuxStream.UpdateKeepsWindow` | tentacle/yamux/src/stream.rs:144-159 | after it the window is full or short by less than half |
| `YamuxStream.FlagsNeverUnexpected` | tentacle/yamux/src/stream.rs:174-302 | the UnexpectedFlag arm is unreachable through `recv_frames`, for any frames from any peer |
| `YamuxStream.HandleFrameConserves` | tentacle/yamux/src/stream.rs:212-260 | a frame taken in keeps the window bound and the credit owed, never overwrites unread bytes, and fails only with a protocol error |
| `YamuxStream.RecvFramesConserves` | tentacle/yamux/src/stream.rs:262-302 | taking frames off the channel loses no byte and reorders none, whatever the peer sent |
| `YamuxOwner.ReadAnswers` | tentacle/yamux/src/stream.rs:304-377 | for every state, channel content and capacity, the answer of `poll_read`: Eof exactly when, after the frames were taken, nothing is buffered and the stream ended by FIN, by the hang-up of its session or by its own close; ConnectionReset exactly when nothing is buffered and an RST was taken; InvalidData exactly when a frame reached breaks the protocol; pending exactly when there is no room for bytes at hand or the channel ran dry; otherwise the front of the bytes at hand |
| `YamuxOwner.ReadReports` | tentacle/yamux/src/stream.rs:327-350 | a read asks its session to go away exactly when it answers InvalidData, and the handle then stops writing |
| `YamuxOwner.WriteAnswers` | tentacle/yamux/src/stream.rs:381-422 | a write fails exactly on a stream closed for writing or, with credit, without its session; it waits exactly without credit; otherwise it reports, and sends in one data frame, as much as the credit allows |
| `YamuxOwner.CloseSends` | tentacle/yamux/src/stream.rs:89-116 | a shutdown sends FIN exactly once and reports Closed exactly when the stream had left the open states before |
| `YamuxOwner.DropSends` | tentacle/yamux/src/stream.rs:438-463 | a drop sends RST exactly when the stream was not closed for writing, and reports Closed exactly when it was not Closed |
| `YamuxFinish.FinGivesEof` | tentacle/yamux/src/stream.rs:304-377 | in every run of two sessions no read fails with InvalidData; and while nothing has gone away, a reader that took FIN and no RST gets Eof exactly when it was handed every byte that was written |
| `YamuxFinish.EofMeansAll` | tentacle/yamux/src/stream.rs:304-377 | conversely a read that answers Eof, a FIN having been taken by it or before, leaves no byte unread |
| `YamuxHandle.LifeIsOrderly` | tentacle/yamux/src/stream.rs:89-302 | over whole runs against an arbitrary peer, owner and session: receive window plus buffered bytes never exceed the maximum; the opener sends SYN exactly first, the acceptor never; ACK at most once; no data after FIN unless the session removed the entry of a handle that was still receiving |
| `YamuxReopen.DataFollowFinIff` | tentacle/yamux/src/stream.rs:381-422 | for any state and any life against any peer, owner and session: data stand behind a FIN in the log exactly when at some moment the owner wrote through a handle that had sent FIN, had credit and was not in LocalClosing, Closed or Reset |
| `YamuxReopen.WritesAgainIff` | tentacle/yamux/src/stream.rs:262-302 | a handle that has stopped writing leaves these states exactly by reading, in LocalClosing and with an empty buffer, to the end of a channel its session has let go of, past frames without bytes or an end that keep the protocol |
| `YamuxReopen.DataBehindFinWasReopened` | tentacle/yamux/src/stream.rs:262-422 | so in every life data behind a FIN were preceded by such a read |
| `YamuxReuse.ReusedIdWritesBehindFin` | tentacle/yamux/src/session.rs:553-585 | a session run that does it, for any configuration that accepts streams: the peer uses an id again, the second Closed event of the old handle removes the entry of the new one, and that one, shut down, read and written, sends data behind its FIN |
| `YamuxTable.NoEntryGoesEarly` | tentacle/yamux/src/session.rs:553-567 | in every run of two sessions a handle without an entry, while its session lives, is Closed or dropped, and no handle has data behind its FIN |
| `YamuxHandle.ActKeepsHandle` | tentacle/yamux/src/stream.rs:327-463 | every read, write, shutdown and drop keeps that invariant, its FIN part as long as no channel ended under a receiving handle |
| `YamuxEnding.ReadsSilentlyIff` | tentacle/yamux/src/stream.rs:351-374 | for every state and channel content: `poll_read` takes the branch marked unreachable exactly when there is room and either bytes are buffered in RemoteClosing, Closed or Reset, or the buffer is empty and the first frame with bytes or an end, reached without breaking the protocol, has both |
| `YamuxEnding.ReadsSilentlyInALife` | tentacle/yamux/src/stream.rs:351-374 | two lives that reach it: by a data frame with FIN, and by a second shutdown with bytes buffered |
| `YamuxTable.SilentReadsInRuns` | tentacle/yamux/src/stream.rs:351-374 | in every run of two sessions a read takes it exactly when bytes are left in a Closed handle, and such a handle was shut down twice |
| `YamuxEnding.FinClosesIff` | tentacle/yamux/src/stream.rs:174-196 | a handle that has shut down becomes Closed by reading exactly when its buffer is empty and the first frame with bytes or an end, reached without breaking the protocol, has FIN and no RST; it then emits nothing |
| `YamuxEnding.DropTellsIff` | tentacle/yamux/src/stream.rs:438-463 | a dropped handle tells its session exactly when it was not Closed |
| `YamuxPast.ActKeepsPast` | tentacle/yamux/src/stream.rs:327-463 | every use keeps the tie between state, number of shutdowns, FIN taken and Closed event sent |
| `YamuxTable.EntriesAreAccountedFor` | tentacle/yamux/src/session.rs:553-567 | in every run, for every table entry whose handle is dropped: its Closed event is queued exactly unless a read turned it from LocalClosing to Closed and it was not shut down again; an entry is missing only if its handle said Closed or was dropped |
| `YamuxOrphan.OrphanStaysIff` | tentacle/yamux/src/session.rs:386-483 | in every run an entry with dropped handle and no queued Closed event stays, whatever either side does next, exactly unless that session ends or a pass of its distribution comes to a frame of the stream |
| `YamuxOrphan.OrphanIsLeft` | tentacle/yamux/src/session.rs:553-567 | a run of eleven moves, for any configuration that accepts a stream, that leaves such an entry at the server with nothing under way |
| `YamuxStreamHandle.StreamHandle.GetFlags` | tentacle/yamux/src/stream.rs:198-210 | in place, as the stream function of which the invariants are proved: the flags due, and the state after sending them |
| `YamuxStreamHandle.StreamHandle.SendWindowUpdate` | tentacle/yamux/src/stream.rs:144-159 | in place, as the stream function of which the invariants are proved: window, state and event of an update |
| `YamuxStreamHandle.StreamHandle.SendClose` | tentacle/yamux/src/stream.rs:167-172 | in place, as the stream function of which the invariants are proved: the FIN frame |
| `YamuxStreamHandle.StreamHandle.Close` | tentacle/yamux/src/stream.rs:89-116 | in place, as the stream function of which the invariants are proved: state and events of a shutdown in each of the eight states |
| `YamuxStreamHandle.StreamHandle.ProcessFlags` | tentacle/yamux/src/stream.rs:174-196 | in place, as the stream function of which the invariants are proved: ACK, FIN and RST in each state |
| `YamuxStreamHandle.StreamHandle.HandleWindowUpdate` | tentacle/yamux/src/stream.rs:233-244 | in place, as the stream function of which the invariants are proved: credit added, or refused on overflow |
| `YamuxStreamHandle.StreamHandle.HandleData` | tentacle/yamux/src/stream.rs:246-260 | in place, as the stream function of which the invariants are proved: bytes buffered and window lowered, or refused |
| `YamuxStreamHandle.StreamHandle.HandleFrame` | tentacle/yamux/src/stream.rs:212-231 | in place, as the stream function of which the invariants are proved: dispatch by frame type |
| `YamuxStreamHandle.StreamHandle.RecvFrames` | tentacle/yamux/src/stream.rs:262-302 | in place, as the stream function of which the invariants are proved: the loop over the channel until data, an end or an error |
| `YamuxStreamHandle.StreamHandle.PollRead` | tentacle/yamux/src/stream.rs:327-377 | in place, as the stream function of which the invariants are proved: bytes handed out, events and state, and the answer that `YamuxOwner.ReadAnswers` reads off the frames |
| `YamuxStreamHandle.StreamHandle.PollWrite` | tentacle/yamux/src/stream.rs:381-422 | in place, as the stream function of which the invariants are proved: bytes accepted, the data frame and the window |
| `YamuxStreamHandle.StreamHandle.Drop` | tentacle/yamux/src/stream.rs:438-463 | in place, as the stream function of which the invariants are proved: events of a dropped handle |
| `YamuxPair.OpenKeeps` | tentacle/yamux/src/session.rs:290-319 | a locally opened stream keeps, in both directions: credit held + data under way + credit under way <= receiver window, SYN first, and, while nothing has gone away, equality, the byte stream and the meaning of FIN |
| `YamuxPair.AcceptKeeps` | tentacle/yamux/src/session.rs:415-438 | a SYN that creates the stream keeps, in both directions: credit held + data under way + credit under way <= receiver window, SYN first, and, while nothing has gone away, equality, the byte stream and the meaning of FIN |
| `YamuxPair.RefuseKeeps` | tentacle/yamux/src/session.rs:403-438 | a SYN answered by a reset keeps, in both directions: credit held + data under way + credit under way <= receiver window, SYN first, and, while nothing has gone away, equality, the byte stream and the meaning of FIN |
| `YamuxPair.DeliverKeeps` | tentacle/yamux/src/session.rs:439-482 | a frame put into the channel keeps, in both directions: credit held + data under way + credit under way <= receiver window, SYN first, and, while nothing has gone away, equality, the byte stream and the meaning of FIN |
| `YamuxPair.DiscardKeeps` | tentacle/yamux/src/session.rs:439-482 | a frame for a stream that is not in the table keeps, in both directions: credit held + data under way + credit under way <= receiver window, SYN first, and, while nothing has gone away, equality, the byte stream and the meaning of FIN |
| `YamuxPair.DisconnectKeeps` | tentacle/yamux/src/session.rs:439-482 | a frame for a dropped handle keeps, in both directions: credit held + data under way + credit under way <= receiver window, SYN first, and, while nothing has gone away, equality, the byte stream and the meaning of FIN |
| `YamuxPair.ForgetKeeps` | tentacle/yamux/src/session.rs:553-567 | a Closed event keeps, in both directions: credit held + data under way + credit under way <= receiver window, SYN first, and, while nothing has gone away, equality, the byte stream and the meaning of FIN |
| `YamuxPair.LoseOutKeeps` | tentacle/yamux/src/session.rs:234-251 | frames thrown away when GoAway clears the write queue keeps, in both directions: credit held + data under way + credit under way <= receiver window, SYN first, and, while nothing has gone away, equality, the byte stream and the meaning of FIN |
| `YamuxPairUse.UseKeeps` | tentacle/yamux/src/stream.rs:327-463 | the same for every read, write, shutdown and drop, and no such use makes the handle report a protocol error |
| `YamuxPairUse.NoProtocolError` | tentacle/yamux/src/stream.rs:212-260 | the frame at the head of a channel is never refused: it fits the window, its credit does not overflow, its flags are expected |
| `YamuxSystem.SendAllKeeps` | tentacle/yamux/src/session.rs:324-348 | moving frames to the transport changes no stream |
| `YamuxSystem.GoAwayKeeps` | tentacle/yamux/src/session.rs:234-251 | GoAway keeps every stream safe although it drops the write queue |
| `YamuxSystem.OpenStreamKeeps` | tentacle/yamux/src/session.rs:254-319 | opening uses an id never used before and changes no other stream |
| `YamuxSystem.UseHandleKeeps` | tentacle/yamux/src/stream.rs:327-463 | using one handle changes its own stream only |
| `YamuxSystem.EventKeeps` | tentacle/yamux/src/session.rs:553-567 | handling an event keeps every stream; the event is never a request for GoAway(ProtocolError) |
| `YamuxSystem.ReceiveKeeps` | tentacle/yamux/src/session.rs:370-383 | a frame from the transport keeps every stream |
| `YamuxDistribute.DistributeKeeps` | tentacle/yamux/src/session.rs:386-483 | a pass of the distribution loop, for any answers of channels and transport, keeps every stream |
| `YamuxDistribute.SynIsNew` | tentacle/yamux/src/session.rs:423-429 | a SYN about to be distributed never meets an existing stream |
| `YamuxTheorems.RunKeeps` | tentacle/yamux/src/session.rs:615-687 | the invariant of all streams holds after any interleaving of any steps of the two sessions |
| `YamuxTheorems.NeverAProtocolError` | tentacle/yamux/src/session.rs:290-319 | two sessions running this code never find fault with each other: no GoAway(ProtocolError) is requested, queued or sent and no duplicate stream arises, in any run |
| `YamuxTheorems.CreditIsConserved` | tentacle/yamux/src/stream.rs:144-165 | per stream and direction, in every reachable state: send window + data in flight + credit in flight <= receive window <= its maximum, with equality while both ends live and nothing has gone away |
| `YamuxTheorems.WireIsUnderstood` | tentacle/yamux/src/session.rs:148-151 | whatever is on the wire fits the other codec: cut up in any way it decodes to exactly the frames sent, and none is rejected |
| `YamuxTheorems.BytesArriveInOrder` | tentacle/yamux/src/stream.rs:262-377 | while nothing has gone away: written == read ++ buffered ++ in flight for a live stream, reads are a prefix of writes, and an end of stream caused by FIN means every byte was read |
| `YamuxPrefix.ReadsArePrefixes` | tentacle/yamux/src/stream.rs:327-377 | in every run in which neither side has sent GoAway, although connections may have ended and the other session may be dropped: what a reader with a living session was handed, followed by what is buffered for it, is a prefix of what was written |
| `YamuxLoss.ReadLosesIff` | tentacle/yamux/src/stream.rs:327-377 | for every state, channel content and capacity: a read takes bytes and hands them to nobody exactly when the own session is dropped and the bytes at hand, buffered or else in the next frame that brings some, make a window update due |
| `YamuxLoss.DroppedSessionSkips` | tentacle/yamux/src/stream.rs:351-374 | a life, for any bytes, in which the owner of a handle whose session is dropped gets the end of a frame without its beginning |
| `YamuxTheorems.OrderSurvives` | tentacle/yamux/src/stream.rs:262-377 | in every run, whatever has gone away or been dropped: the bytes a reader was handed are a subsequence of the bytes written to that stream, so none is invented, repeated or out of order |
| `YamuxOrder.LoseOutHolds` | tentacle/yamux/src/session.rs:234-251 | clearing the write queue, or losing any stretch of what is under way, keeps what was received followed by what is under way a subsequence of what was written |
| `YamuxOrder.UseHolds` | tentacle/yamux/src/stream.rs:262-377 | so does every use of a handle, and no use asks for a go-away |
| `YamuxOrder.DiscardHolds` | tentacle/yamux/src/session.rs:439-482 | so does dropping a frame for a stream that is no longer in the table |
| `YamuxTheorems.NeverStalls` | tentacle/yamux/src/stream.rs:144-159 | with an empty read buffer and nothing under way either way, the writer may send more than half the maximal window, although small updates are suppressed |
| `YamuxDelivery.DistributeDelivers` | tentacle/yamux/src/session.rs:386-483 | against an arbitrary peer and any answers, a pass hands each connected stream a prefix of its waiting frames and keeps the rest in order; only an early go-away return may lose some |
| `YamuxDelivery.SynStartsItsChannel` | tentacle/yamux/src/session.rs:415-450 | at any turn of the loop, a SYN that creates a stream becomes the first frame of the fresh channel and is never put back; the later frames of the stream follow or wait behind it in order |
| `YamuxLimits.SynIsAnswered` | tentacle/yamux/src/session.rs:403-438 | against any peer, for a SYN met before a go-away: its stream is created, and queued to be handed out, exactly when the number of streams and the backlog leave room and the id is new; at a limit no stream appears and exactly one ACK with RST for the id is queued; an id in the table makes the session go away |
| `YamuxLimits.AcceptedIsAcknowledged` | tentacle/yamux/src/session.rs:290-319 | a stream that a SYN creates acknowledges at once, announces its whole window and starts with the initial credit |
| `YamuxLimits.LateSynIsReset` | tentacle/yamux/src/session.rs:403-413 | a SYN met after this side went away is answered by one RST and ends the pass |
| `YamuxLimits.PassAnswersSyns` | tentacle/yamux/src/session.rs:386-483 | over a whole pass: every SYN it takes is answered by a stream or by a refusal, each exactly once if none is put back |
| `YamuxLimits.PutBackSynIsRefused` | tentacle/yamux/src/session.rs:431-471 | a SYN at a limit for a stream whose channel is full is refused and put back, so that the next pass refuses it again |
| `YamuxLimits.PassIsWithinLimits` | tentacle/yamux/src/session.rs:386-483 | whatever the peer sent, a pass takes neither the number of streams past the larger of its old value and the maximum, nor the streams waiting to be handed out past the backlog |
| `YamuxLimits.StepIsWithinLimits` | tentacle/yamux/src/session.rs:615-687 | the same for every step of a session, but that an open of its own adds one stream |
| `YamuxLimits.BacklogIsKept` | tentacle/yamux/src/session.rs:415-438 | so in every run the streams waiting to be handed out fit the backlog |
| `YamuxService.PassHandsOver` | tentacle/yamux/src/session.rs:386-483 | a connected stream whose channel never answers full has all its waiting frames in its channel after a pass, in order, unless the pass returns early |
| `YamuxService.PutBackStays` | tentacle/yamux/src/session.rs:386-483 | what a pass has put back waits in front of everything else, however the pass ends |
| `YamuxService.HandedOutInOrder` | tentacle/yamux/src/session.rs:663-667 | over any turns against any peer: streams are handed out in the order their SYNs were accepted, each once and none left out |
| `YamuxService.OpensIff` | tentacle/yamux/src/session.rs:254-319 | a stream is opened exactly when neither side is gone, ids are left and the next one is free; it then takes that id, and its SYN announces the whole window |
| `YamuxService.FlushMoves` | tentacle/yamux/src/session.rs:324-348 | a session hands the transport as many frames as it takes, in order, and none once both sides have gone away or the connection has ended |
| `YamuxService.PingIsAnswered` | tentacle/yamux/src/session.rs:492-506 | a ping with SYN is answered by one ping with ACK and the same number, any other by nothing |
| `YamuxService.GoAwayIsAnswered` | tentacle/yamux/src/session.rs:508-528 | a go-away is answered by one normal go-away unless this side went first, what waits is dropped, and the session is dead |
| `YamuxService.ShutdownSays` | tentacle/yamux/src/session.rs:192-201 | a shutdown drops what waits and sends one normal go-away, and does nothing on a dead session |
| `YamuxService.SmallStepsAct` | tentacle/yamux/src/session.rs:216-228 | a ping goes out with SYN and its number behind the other frames; a timeout after a go-away of this side counts as the other side having gone; the end of the connection ends the session |
| `YamuxService.EventIsHandled` | tentacle/yamux/src/session.rs:553-567 | a frame event is sent behind the others, a closed stream leaves the table, a broken protocol makes the session go away with that code |
| `YamuxSynOrder.SynsLeaveInOrder` | tentacle/yamux/src/session.rs:290-319 | in every run the SYNs a side has sent carry strictly increasing ids of its own parity |
| `YamuxSessionObject.Session.constructor` | tentacle/yamux/src/session.rs:140-178 | in place, as the session function over which the run theorems are proved: a fresh session |
| `YamuxSessionObject.Session.SendAll` | tentacle/yamux/src/session.rs:324-348 | in place, as the session function over which the run theorems are proved: the loop over the write queue for any answers of the transport |
| `YamuxSessionObject.Session.SendFrame` | tentacle/yamux/src/session.rs:362-368 | in place, as the session function over which the run theorems are proved: queue and flush |
| `YamuxSessionObject.Session.SendGoAwayWithCode` | tentacle/yamux/src/session.rs:234-251 | in place, as the session function over which the run theorems are proved: queue cleared, GoAway sent, flag set |
| `YamuxSessionObject.Session.OpenStream` | tentacle/yamux/src/session.rs:254-263 | in place, as the session function over which the run theorems are proved: refused once dead or gone away |
| `YamuxSessionObject.Session.CreateStream` | tentacle/yamux/src/session.rs:290-319 | in place, as the session function over which the run theorems are proved: id allocation, duplicates, exhaustion |
| `YamuxSessionObject.Session.HandleFrame` | tentacle/yamux/src/session.rs:370-383 | in place, as the session function over which the run theorems are proved: dispatch by frame type |
| `YamuxSessionObject.Session.HandleGoAway` | tentacle/yamux/src/session.rs:508-528 | in place, as the session function over which the run theorems are proved: answer and flags |
| `YamuxSessionObject.Session.HandleEvent` | tentacle/yamux/src/session.rs:553-567 | in place, as the session function over which the run theorems are proved: frame, closed and go-away events |
| `YamuxSessionObject.Session.DistributeFrame` | tentacle/yamux/src/session.rs:403-483 | in place, as the session function over which the run theorems are proved: one frame of the loop: accept, refuse or push, which `YamuxLimits.SynIsAnswered` ties to the limits |
| `YamuxSessionObject.Session.DistributeToSubstream` | tentacle/yamux/src/session.rs:386-483 | in place, as the session function over which the run theorems are proved: the loop with its set of blocked streams and its early returns |
| `SecioSupport.SelectMeaning` | tentacle/secio/src/support.rs:62-78 | the choice is the first known token of the preferred list that the other list has; there is one exactly when the lists share a known token, whoever is preferred |
| `SecioSupport.SelectSwaps` | tentacle/secio/src/support.rs:132-169 | swapping the roles and reversing a strict preference chooses the same |
| `SecioSupport.SplitJoin` | tentacle/secio/src/support.rs:33-56 | splitting at commas undoes joining |
| `SecioSupport.KeyAgreementsProposition` | tentacle/secio/src/support.rs:33-56 | the printed list splits back into exactly the names printed; the empty list prints nothing |
| `SecioSupport.CiphersProposition` | tentacle/secio/src/support.rs:81-104 | the same for ciphers |
| `SecioSupport.DigestsProposition` | tentacle/secio/src/support.rs:107-126 | the same for digests |
| `SecioSupport.NamesAreKnown` | tentacle/secio/src/support.rs:10-20 | every printed name is recognised as what it names |
| `SecioHandshake.PeersAgree` | tentacle/secio/src/handshake/handshake_context.rs:132-252 | for any hash function, two sides with different keys and different order hashes see opposite orders and reach the same key agreement, cipher and digest, or the same failure, through the encoded propositions |
| `SecioHandshake.SucceedsIffOverlap` | tentacle/secio/src/handshake/handshake_context.rs:132-252 | a side gets past the choice exactly when the two have an algorithm of each kind in common |
| `SecioHandshake.SameKeyIsRefused` | tentacle/secio/src/handshake/handshake_context.rs:155-157 | equal keys are refused as a connection to oneself |
| `SecioHandshake.RemoteAnswers` | tentacle/secio/src/handshake/handshake_context.rs:132-252 | for any bytes from the peer: parsing fails exactly if they are no proposition with a public key in it, the connection is refused as one to oneself exactly if that key is the own one, and otherwise the order of the two hashes decides the choice |
| `SecioHandshake.ProposeDecodesIff` | tentacle/secio/src/handshake/handshake_struct.rs:68-98 | a proposition is read exactly from its encodings, further fields behind the five being ignored |
| `SecioHandshake.KeyDecodesIff` | tentacle/secio/src/handshake/handshake_struct.rs:161-172 | a public key is read exactly from its encoding |
| `SecioHandshake.DefaultPropositions` | tentacle/secio/src/support.rs:10-31 | the names proposed by default, in order of preference, natively and in a browser |
| `SecioHandshake.ProposeOnWire` | tentacle/secio/src/handshake/handshake_struct.rs:36-66 | the order of the five fields on the wire, and the union item of a public key |
| `SecioHandshake.HalvesSplit` | tentacle/secio/src/handshake/procedure.rs:204-215 | the side with the greater order hash writes with the first half of the stretched key and reads with the second |
| `SecioHandshake.CompareMeans` | tentacle/secio/src/handshake/handshake_context.rs:161-177 | one string is below another exactly if it is a proper prefix or smaller at the first difference |
| `SecioHandshake.TieAgreesIff` | tentacle/secio/src/handshake/handshake_context.rs:161-177 | if the order hashes are equal, the two agree exactly when some kind of algorithm has no known token in common, or in each kind both lists name the same common token first |
| `SecioHandshake.TieCanDisagree` | tentacle/secio/src/handshake/handshake_context.rs:161-177 | two configurations that, on any tie, both get past the choice with different key agreements |
| `SecioHandshake.EqualInputsIff` | tentacle/secio/src/handshake/handshake_context.rs:161-177 | the inputs of the two order hashes are equal exactly when one key continues the other and the nonces differ by the rest; with keys of equal length, or with the 16-byte nonces this code makes, a tie needs a hash collision |
| `SecioHandshake.TieWithoutCollision` | tentacle/secio/src/handshake/handshake_context.rs:161-177 | a peer with a longer nonce than this code makes reaches a tie for every hash function |
| `SecioHandshake.HalvesCross` | tentacle/secio/src/handshake/procedure.rs:204-215 | of one stretched key each side writes with the half the other reads with; on a tie both refuse |
| `SecioSupport.EqualSelectsAlikeIff` | tentacle/secio/src/support.rs:62-78 | two sides that both prefer the other list choose alike exactly when nothing known is common or both name the same common token first |
| `SecioHandshake.CompareReverses` | tentacle/secio/src/handshake/handshake_context.rs:161-177 | the byte-wise comparison is antisymmetric and equal only on equal strings |
| `SecioHandshake.ProposeReturns` | tentacle/secio/src/handshake/handshake_struct.rs:25-80 | a proposition survives its encoding |
| `SecioHandshake.KeyReturns` | tentacle/secio/src/handshake/handshake_struct.rs:153-172 | a public key survives its encoding; the union dispatch cannot panic |
| `SecioNonce.NonceAdvance` | tentacle/secio/src/crypto/mod.rs:89-98 | in place, the loop with carry computes the successor |
| `SecioNonce.AdvanceIsIncrement` | tentacle/secio/src/crypto/mod.rs:89-98 | the successor is little-endian plus one modulo 256^n |
| `SecioNonce.NoncesRepeatOnlyAfterAll` | tentacle/secio/src/crypto/mod.rs:89-98 | two nonces are equal exactly when a multiple of 256^n calls lies between them |
| `SecioNonce.NoncesAreDistinct` | tentacle/secio/src/crypto/mod.rs:89-98 | the first 256^n nonces are pairwise distinct |
| `SecioStream.StreamIsTransparent` | tentacle/secio/src/codec/secure_stream.rs:100-220 | for any cipher that inverts under equal key and nonce, both kinds of receive buffer and any interleaving: both nonce counters stay in step per frame, no read or write fails, and with room at every read the bytes handed out, unread and under way are together exactly the bytes the writer was told it has written |
| `SecioStream.ReadConserves` | tentacle/secio/src/codec/secure_stream.rs:132-197 | one read conserves the byte stream exactly when it is not a read without room that replaces unread bytes by a further non-empty frame |
| `SecioStream.ReadWithoutRoomLoses` | tentacle/secio/src/codec/secure_stream.rs:132-197 | a run of two writes and two reads, the last without room, after which one byte is gone, for both kinds of buffer |
| `SecioStream.FramesHaveFreshNonces` | tentacle/secio/src/crypto/openssl_impl.rs:48-56 | in every run the frame number k handed to the transport is message number k sealed with nonce number k + 1, and two frames fewer than 256^n apart have different nonces |
| `SecioStream.WriteAnswers` | tentacle/secio/src/codec/secure_stream.rs:204-220 | a write is told all of its bytes when the transport takes the frame, and nothing is sealed otherwise |
| `SecioStream.ReadAnswers` | tentacle/secio/src/codec/secure_stream.rs:158-197 | a read is told the unread bytes first, without asking the transport; otherwise the front of the next frame, a failure exactly if the transport failed or the frame does not open, or to wait |
| `SecioStream.SealedOpens` | tentacle/secio/src/crypto/openssl_impl.rs:64-79 | splitting the tag off again and opening gives the plaintext back, and the nonce has advanced by one, in both variants of decryption |
| `SecioStreamObject.StreamCipher.Encrypt` | tentacle/secio/src/crypto/openssl_impl.rs:48-56 | in place, as the function over which transparency is proved: advances the nonce, then seals |
| `SecioStreamObject.StreamCipher.Decrypt` | tentacle/secio/src/crypto/openssl_impl.rs:64-79 | in place, as the function over which transparency is proved: advances before looking at the frame, or refuses a short frame first when in place |
| `SecioStreamObject.SecureStream.Drain` | tentacle/secio/src/codec/secure_stream.rs:132-145 | in place, as the function over which transparency is proved: hands out the front of the buffer |
| `SecioStreamObject.SecureStream.DecodeBuffer` | tentacle/secio/src/codec/secure_stream.rs:100-107 | in place, as the function over which transparency is proved: both buffer kinds |
| `SecioStreamObject.SecureStream.PollRead` | tentacle/secio/src/codec/secure_stream.rs:158-197 | in place, as the function over which transparency is proved: buffer first, then one frame |
| `SecioStreamObject.SecureStream.PollWrite` | tentacle/secio/src/codec/secure_stream.rs:204-220 | in place, as the function over which transparency is proved: seals only when the transport is ready; the bytes it says it took are the ones conserved |
| `MoleculeVerify.VerifiedIsSound` | tentacle/protocols/discovery/src/protocol_mol.rs:419-464 | for every schema and both modes: on an accepted slice every accessor at every depth stays in bounds, no union dispatch panics, and the value read is well typed; in strict mode it encodes to the slice again |
| `MoleculeVerify.PartsTile` | tentacle/protocols/discovery/src/protocol_mol.rs:419-464 | the items of an accepted layout fill the slice after its header without gap or overlap |
| `MoleculeVerify.ItemIsPart` | tentacle/protocols/discovery/src/protocol_mol.rs:300-311 | every indexed access and field accessor gives exactly the item that was verified |
| `MoleculeVerify.LayoutIsRewritten` | tentacle/protocols/discovery/src/protocol_mol.rs:495-521 | laying the items of an accepted slice out again gives the slice |
| `MoleculeVerify.StrictIsCompatible` | tentacle/protocols/discovery/src/protocol_mol.rs:2076-2117 | what the strict mode accepts, the compatible mode accepts |
| `MoleculeWide.CompatibleMeansWide` | tentacle/protocols/discovery/src/protocol_mol.rs:2076-2117 | for every schema, value and slice shorter than 2^32 bytes: the compatible mode accepts the slice and the accessors read that value exactly when the slice is an encoding of the value in which every table, at any depth, may carry further fields |
| `MoleculeWide.ExtraFieldsAreIgnored` | tentacle/protocols/discovery/src/protocol_mol.rs:2076-2117 | a table followed by any further fields is accepted by the compatible mode and read as without them, and accepted by the strict mode exactly if there are none |
| `MoleculeEncode.EncodedReturns` | tentacle/protocols/discovery/src/protocol_mol.rs:495-521 | for every schema and value shorter than 2^32 bytes: the encoding is accepted in both modes and read back unchanged |
| `MoleculeEncode.StrictMeansEncoded` | tentacle/protocols/discovery/src/protocol_mol.rs:419-464 | strict verification accepts a slice exactly when it is the encoding of some value |
| `MoleculeEncode.NumberOnWire` | tentacle/protocols/discovery/src/protocol_mol.rs:495-521 | numbers are four bytes, least significant first |
| `MoleculeEncode.LayoutPart` | tentacle/protocols/discovery/src/protocol_mol.rs:495-521 | item k lies where the k-th offset says |
| `MoleculeEncode.Accumulate` | tentacle/protocols/discovery/src/protocol_mol.rs:502-511 | the fold over the items yields the offsets and the total size |
| `MoleculeEncode.Write` | tentacle/protocols/discovery/src/protocol_mol.rs:495-521 | the builder appends exactly the layout |
| `Discovery.DecodeUndoesEncode` | tentacle/protocols/discovery/src/protocol.rs:48-162 | for every message with valid addresses and an encoding shorter than 2^32 bytes, decoding gives the message back, through table, union, table, vector, table, vector and byte vector |
| `Discovery.DecodesIff` | tentacle/protocols/discovery/src/protocol.rs:126-162 | for any bytes and any message: decoding gives that message exactly when its addresses are valid and the bytes are an encoding of it in which every table may carry further fields |
| `Discovery.EncodeUndoesDecode` | tentacle/protocols/discovery/src/protocol.rs:126-162 | a message decoded from bytes that the strict mode accepts encodes to those bytes |
| `Discovery.Build` | tentacle/protocols/discovery/src/protocol.rs:48-123 | the nested builders with their loops produce exactly that encoding |
| `Discovery.BuildItems` | tentacle/protocols/discovery/src/protocol.rs:92-107 | the two nested loops push one node per item, in order |
| `MultiaddrProtocol.WrittenParses` | tentacle/multiaddr/src/protocol.rs:96-217 | a component parses back in front of any suffix exactly when it is not a P2P component with a malformed hash |
| `MultiaddrProtocol.ParseIsLocal` | tentacle/multiaddr/src/protocol.rs:96-165 | the bytes behind a component do not matter for parsing it |
| `MultiaddrProtocol.ParsedHash` | tentacle/multiaddr/src/protocol.rs:278-293 | a parsed P2P component carries a well-formed hash |
| `MultiaddrProtocol.PutVarintReads` | tentacle/multiaddr/src/protocol.rs:169-217 | the unsigned varint of a number reads back |
| `MultiaddrProtocol.ParsedPrintsIff` | tentacle/multiaddr/src/protocol.rs:96-217 | a parsed component is written back to the bytes it was parsed from exactly when its code has at most 32 bits and its length at most 64 |
| `MultiaddrWire.TextsOnWire` | tentacle/multiaddr/src/protocol.rs:169-217 | code, length and text of the components with text, and of a hash |
| `MultiaddrWire.NumbersOnWire` | tentacle/multiaddr/src/protocol.rs:169-217 | the bytes of IPv4, TCP, WebSocket and secure WebSocket components |
| `MultiaddrWire.Ip6OnWire` | tentacle/multiaddr/src/protocol.rs:169-217 | the seventeen bytes of an IPv6 component |
| `MultiaddrWire.MemoryOnWire` | tentacle/multiaddr/src/protocol.rs:169-217 | the ten bytes of a memory component |
| `MultiaddrWire.Utf8Iff` | tentacle/multiaddr/src/protocol.rs:96-165 | text is accepted exactly if it is the UTF-8 form of a sequence of Unicode scalar values |
| `MultiaddrWire.HashIff` | tentacle/multiaddr/src/protocol.rs:278-293 | a hash is accepted exactly if it is code 0x12, length 32 and 32 bytes, or the same with a code that overflows sixteen bits onto 0x12 |
| `MultiaddrWire.ParseFails` | tentacle/multiaddr/src/protocol.rs:96-165 | each error of parsing a component and exactly when it is given |
| `Multiaddr.JoinParses` | tentacle/multiaddr/src/lib.rs:190-201 | the components of a collected address are the components it was collected from |
| `Multiaddr.CollectingRebuildsIff` | tentacle/multiaddr/src/lib.rs:190-201 | collecting the components of any accepted byte string gives the same bytes exactly when no varint in it overflows its width |
| `Multiaddr.OverflowIsAccepted` | tentacle/multiaddr/src/lib.rs:278-289 | an accepted byte string that collecting does not give back |
| `Multiaddr.FittingIsKept` | tentacle/multiaddr/src/lib.rs:57-90 | addresses without overflowing varints stay so under `push` and `pop` |
| `Multiaddr.PopUndoesPush` | tentacle/multiaddr/src/lib.rs:57-90 | for every valid address and good component, `pop` after `push` returns the component and restores the bytes |
| `Multiaddr.LastSplitIsLast` | tentacle/multiaddr/src/lib.rs:75-90 | `pop` takes exactly the last component; the rest is untouched and still valid |
| `Multiaddr.ReplaceIsLocalIff` | tentacle/multiaddr/src/lib.rs:117-145 | for any accepted address, replacing leaves the bytes before and behind the chosen component as they were exactly when no varint of the other components overflows |
| `Multiaddr.PushedHashMustBeGood` | tentacle/multiaddr/src/lib.rs:57-62 | pushing a P2P component keeps the address readable exactly when its hash is well formed |
| `Multiaddr.ComponentsConcat` | tentacle/multiaddr/src/lib.rs:190-201 | addresses concatenate |
| `Multiaddr.Address.FromIter` | tentacle/multiaddr/src/lib.rs:190-201 | joins the components |
| `Multiaddr.Address.TryFrom` | tentacle/multiaddr/src/lib.rs:278-286 | accepts exactly the byte strings that parse to the end |
| `Multiaddr.Address.Push` | tentacle/multiaddr/src/lib.rs:57-62 | appends one component |
| `Multiaddr.Address.Pop` | tentacle/multiaddr/src/lib.rs:75-90 | the scanning loop; its `expect` never fires on a valid address |
| `Multiaddr.Address.Replace` | tentacle/multiaddr/src/lib.rs:117-145 | as the replacement in the list of components, and as the replacement of the bytes of that component exactly when no varint of the others overflows |
| `Multiaddr.Iter.Next` | tentacle/multiaddr/src/lib.rs:233-243 | yields the components one by one; its `expect` never fires |
| `TentacleBuffer.DeliverKeepsOrder` | tentacle/tentacle/src/buffer.rs:57-106 | sending loses and reorders nothing unless the channel is gone; a normal item is sent only after every high one |
| `TentacleBuffer.PriorityBuffer.TrySend` | tentacle/tentacle/src/buffer.rs:57-106 | the two loops do exactly that, for any answers of the channel |
| `TentacleService.DeliverGoesOn` | tentacle/tentacle/src/buffer.rs:57-106 | items leave exactly as long as the channel takes them, and the first other answer is the one reported |
| `TentacleService.PushedLeavesInLine` | tentacle/tentacle/src/buffer.rs:41-55 | a high item leaves behind the high ones and before every normal one, a normal one behind all |
| `TentacleService.RoutedInLine` | tentacle/tentacle/src/session.rs:546-562 | a message for an open protocol joins the line of that substream and no other, and nothing in it is lost while the channel exists |
| `TentacleService.LimitClears` | tentacle/tentacle/src/session.rs:343-373 | a pass stops at the first buffer it cannot empty, and clears it and gives the session up exactly if more than the limit is pending |
| `TentacleService.SendGoesOn` | tentacle/tentacle/src/substream.rs:125-165 | frames go down exactly as long as the transport accepts them; an error takes one frame with it, a failing flush none |
| `TentacleService.TakenGoesDown` | tentacle/tentacle/src/substream.rs:253-282 | a live substream that takes a message keeps a tail of its frames in order, and the counter falls by those handed down; told to close it forgets the normal ones; a dead one takes nothing |
| `TentacleService.RequestIsServed` | tentacle/tentacle/src/session.rs:546-612 | in normal state each request does what it asks for; in any other it is thrown away |
| `TentacleService.RequestJoinsLine` | tentacle/tentacle/src/session.rs:546-590 | a message joins the line of its protocol with the priority asked for, and the order to close a protocol joins it as a high one naming the substream and the protocol |
| `TentacleService.OpenedIsLive` | tentacle/tentacle/src/session.rs:392-492 | a protocol that is not open gets the next substream, live and with empty buffers; a session closed here opens none and looks at no reports |
| `TentacleService.OtherStepsEnd` | tentacle/tentacle/src/session.rs:495-544 | the timeout closes a session without substreams and no other, an unknown protocol makes it give up, and the end of the service or its own clears it |
| `TentacleService.FinishWindsDown` | tentacle/tentacle/src/session.rs:738-816 | at the end of a poll a session closed here or given up is cleared, one closed by the other side tells its substreams first, a normal one is left alone |
| `TentacleService.SendIsQueued` | tentacle/tentacle/src/service.rs:466-547 | an accepted message waits behind the others; one that is not accepted only raises the counter |
| `TentacleTheorems.RunKeeps` | tentacle/tentacle/src/session.rs:495-612 | over every run of opens, reports, requests, flushes and substream steps: every listed substream is the one of its protocol, every open protocol has its substream until the table is cleared, and the counter is balanced |
| `TentacleTheorems.CounterNeverWraps` | tentacle/tentacle/src/context.rs:95-104 | the pending counter is exactly the bytes still queued in service channel, session buffers, substream channels and write buffers plus the bytes dropped without being taken off; so it covers every queued byte and its subtraction never wraps |
| `TentacleTheorems.CloseKeepsTableIff` | tentacle/tentacle/src/session.rs:504-509 | a Close event for a listed substream keeps protocols and substreams in bijection, until the table is cleared, exactly when it names that substream's own protocol |
| `TentacleTheorems.OpenKeepsTable` | tentacle/tentacle/src/session.rs:416-489 | opening keeps the table in order; opening twice is opening once |
| `TentacleTheorems.EveryoneIsTold` | tentacle/tentacle/src/session.rs:660-673 | when the loop visits every substream, each of them finds the order to close in its channel or waiting in front of it, unless its channel is closed |
| `TentacleTheorems.CounterCoversBuffers` | tentacle/tentacle/src/context.rs:95-104 | in every run the counter covers what waits in the buffers of any substream, which is what a flush requires |
| `TentacleTheorems.CounterCoversSubstream` | tentacle/tentacle/src/context.rs:95-104 | and together with any event in its channel, which is what handling that event requires |
| `TentacleTheorems.StaleCloseIsHarmless` | tentacle/tentacle/src/session.rs:504-509 | a stale or duplicate report changes nothing, and never tears down a later substream of the same protocol |
| `TentacleTheorems.RoutedMessageFindsBuffer` | tentacle/tentacle/src/session.rs:548-558 | a message for an open protocol finds the buffer of that protocol's substream |
| `TentacleProofs.TrySendBalances` | tentacle/tentacle/src/buffer.rs:57-111 | what leaves a session buffer is in the channel or accounted as dropped |
| `TentacleProofs.TaskTakesBalances` | tentacle/tentacle/src/substream.rs:253-282 | an event taken by a substream keeps the balance, including Close, which clears the write buffer |
| `TentacleProofs.TaskSendsBalances` | tentacle/tentacle/src/substream.rs:125-165 | writing out lowers the counter by exactly what was handed down |
| `TentacleProofs.SendDataConserves` | tentacle/tentacle/src/substream.rs:149-165 | `send_data` keeps order, loses at most one frame, with an error, and sends normal frames only after all high ones |
| `TentacleProofs.DistributeBalances` | tentacle/tentacle/src/session.rs:343-373 | distribution keeps the balance, including the buffer it clears over the limit |
| `TentacleProofs.CleanBalances` | tentacle/tentacle/src/session.rs:715-724 | clearing the table keeps the balance |
| `TentacleObjects.BroadcastCounts` | tentacle/tentacle/src/service.rs:466-547 | a message to a list of sessions raises the counter of each by its length once per mention and keeps each balanced |
| `TentacleObjects.SessionContext.Decr` | tentacle/tentacle/src/context.rs:101-104 | in place, as the function over which the run theorems are proved: the subtraction, which must be covered |
| `TentacleObjects.Substream.SendInner` | tentacle/tentacle/src/substream.rs:125-146 | in place, as the function over which the run theorems are proved: one frame: handed down and counted off, pushed back, pushed back with a failing flush, or lost |
| `TentacleObjects.Substream.SendData` | tentacle/tentacle/src/substream.rs:149-165 | in place, as the function over which the run theorems are proved: the two loops and the last flush; the counter covers what is left after every frame |
| `TentacleObjects.Substream.HandleProtoEvent` | tentacle/tentacle/src/substream.rs:253-282 | in place, as the function over which the run theorems are proved: messages queue behind what waits, Close clears the normal buffer |
| `TentacleObjects.Session.OpenProtocol` | tentacle/tentacle/src/session.rs:392-492 | in place, as the function over which the run theorems are proved: both maps get the next id |
| `TentacleObjects.Session.HandleClose` | tentacle/tentacle/src/session.rs:504-509 | in place, as the function over which the run theorems are proved: both entries go if the substream was listed |
| `TentacleObjects.Session.Route` | tentacle/tentacle/src/session.rs:548-562 | in place, as the function over which the run theorems are proved: a message finds its buffer or is dropped |
| `TentacleObjects.Session.CloseAllProto` | tentacle/tentacle/src/session.rs:660-673 | in place, as the function over which the run theorems are proved: the visited buffers are told to close; a second call clears the table |
| `TentacleObjects.Session.DistributeToSubstream` | tentacle/tentacle/src/session.rs:343-373 | in place, as the function over which the run theorems are proved: the loop over the buffers with its early end |
| `TentacleObjects.Session.Clean` | tentacle/tentacle/src/session.rs:715-724 | in place, as the function over which the run theorems are proved: the table is cleared, what the receivers hold stays |
| `TentacleObjects.Service.HandleMessage` | tentacle/tentacle/src/service.rs:466-547 | in place, as the function over which the run theorems are proved: the loops over the target sessions |
| `TentacleCallbacks.CallbacksFollowTheAutomaton` | tentacle/tentacle/src/protocol_handle_stream.rs:126-206 | for every event sequence and every moment at which flags turn true, each received or disconnected callback falls between the connected callback of its session and the next disconnected one, with the same context; the table holds exactly the open sessions |
| `TentacleCallbacks.EndsAreSeparated` | tentacle/tentacle/src/protocol_handle_stream.rs:126-206 | between two disconnected callbacks of a session there is a connected one |
| `TentacleReports.CallbacksAreDue` | tentacle/tentacle/src/protocol_handle_stream.rs:126-228 | for every event sequence and every moment at which flags turn true, the whole sequence of callbacks is the one read off the events: init, each connection, each end reported or found by a sweep of an open session, each piece of data and each notification, with the context of the last connection; the table holds the open sessions and timers run exactly for the tokens wanted |
| `TentacleReports.DataAreDelivered` | tentacle/tentacle/src/protocol_handle_stream.rs:174-184 | the received callbacks are, in order, exactly the data that arrive for a session connected at that point while it is not closed and the service not shut down |
| `TentacleCallbacks.ServiceProtocolStream.HandleEvent` | tentacle/tentacle/src/protocol_handle_stream.rs:126-206 | in place, with the sweep of closed sessions, as the function whose callbacks and timers are proved to be exactly those due |
| `SharedState.IndexIsExact` | connector/src/shared.rs:29-60 | with one context per session id, the index of a peer lists exactly the sessions added and not removed since, in order, and has no empty entry |
| `SharedState.TableIsExact` | connector/src/shared.rs:29-121 | after any operations the table holds for each session exactly the context it came with first since its last removal and the protocols opened and not closed since |
| `SharedState.PeerSessionsAreComplete` | connector/src/shared.rs:62-102 | looking up a peer finds every listed session; looking up one finds the oldest |
| `SharedState.RemovalIsExactIff` | connector/src/shared.rs:41-60 | removal clears a session from every entry exactly when it is listed under no other peer than that of the stored context |
| `SharedState.SecondContextIsLeftBehind` | connector/src/shared.rs:29-60 | two contexts for one id leave an entry behind |
| `SharedState.Shared.AddSession` | connector/src/shared.rs:29-39 | in place, as the function over which the index is proved exact |
| `SharedState.Shared.RemoveSession` | connector/src/shared.rs:41-60 | in place, as the function over which the index is proved exact |
| `SharedState.Shared.AddProtocol` | connector/src/shared.rs:104-114 | in place, as the function over which the index is proved exact |
| `SharedState.Shared.RemoveProtocol` | connector/src/shared.rs:116-121 | in place, as the function over which the index is proved exact |

## Left out

- Wakers, timers, keep-alive pings and their identifiers, write timeouts, logging: a ping is a frame without effect on streams, and the go-away timeout is a step that may happen at any time.
- Transports, TLS, WebSocket, DNS, UPnP, service configuration and control, protocol selection, dialing and listening: input and output plumbing.
- Failures of the yamux transport while sending: modelled as the transport not taking any more frames, and as end of file.
- YamuxTheorems.BytesArriveInOrder: the full account of every byte needs both sessions alive; without GoAway a prefix remains (`ReadsArePrefixes`), and after GoAway, which clears the write queue and lets the distribution drop the rest of its batch, order (`OrderSurvives`).
- YamuxTheorems.NeverAProtocolError: a channel that has room for no frame at all when it is created is not modelled; the source creates it with room for eight.
- SecioStream.StreamIsTransparent: a transport that fails after a frame was sealed ends the stream and is not modelled, nor is the nonce exchange at the start of a stream or the length-delimited framing below it.
- Key exchange, signatures and key stretching of the handshake after the choice of algorithms; of the stretched key only its halving is modelled.
- Kinds of Molecule verification errors: verification is modelled as accepting or not, which is the same in both versions of the generator.
- Molecule fixed vectors and arrays of items longer than a byte, and structs: the two schemas do not use them.
- The length-delimited wrapper around discovery messages, and the ping and identify protocols.
- Text forms of addresses, and base58; of the unsigned-varint crate the documented form is modelled: seven bits a byte, low ones first, at most 3, 5 or 10 bytes, no superfluous last zero, and bits beyond the width dropped.
- TentacleTheorems.CounterNeverWraps: the counter and the substream ids are unbounded; that 2^64 bytes are dropped in one session, or 2^64 substreams opened, is not considered.
- The spawned read and write halves of a substream, session protocol handles, and the reports to the service: they touch neither the table nor the counter in a different way.
- Capacity management of buffers (`shrink_to_fit`), and `Buffer`, which is `PriorityBuffer` with one queue.
- Mailboxes of the connector: only which protocols have one is modelled.
