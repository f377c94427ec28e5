# Wacalls: a verified model

A Dafny model of the parts of the calling gateway that keep state and count:
the media wire stack, the call protocol, the outbound dialer and the byte
formats.  `dafny verify dfyconfig.toml` checks the whole of it.

Where the source updates something in place, the model does too: its records
are classes, its loops are loops, its buffers are arrays.  Each method is
proved against a function on values, and what the system promises is proved
about those functions, over every input, run or interleaving.

## What is modelled

**Media wire stack.** `AnnexB` and `H264Packet` split, fragment, aggregate and
reassemble video.  `Rtp` frames packets, `Srtp` and `SrtpRuns` protect them under
a 48-bit index.  `VideoPipeline` joins these into the pipeline that sends access
units and receives datagrams, `VideoDelivery` composes all of it end to end, and
`WireLayout` and `VideoWire` say what the bytes in between are, position by position.
`AudioTimeline` puts received audio back on its timeline and cuts captured audio
into frames.  `Recorder` mixes the two sides of a call into one track.

**Call protocol.** `CallState` is the lifecycle of a call.  `RelayTransport` and
`RelayChoice` choose and keep relay connections.  `CallProtocol` makes each
critical section of the call manager one atomic step and reasons about all
interleavings of them.

**Dialer.** `DialerQueue` holds jobs and leases, `RetryDelays` the backoff.
`DialerRuns`, `DialerTermination` and `DialerWaits` reason about all interleavings of dispatches,
`DialerScheduler` about the tick, `CircuitBreaker`, `CostLedger` and `JobEngine`
about the rest of the orchestration.

**Byte formats.** `Stun`, `StunRoundTrip` and `StunWire` (sections 5 and 14 of RFC 8489),
`Subscriptions` (protobuf), `Crc16` and `PixCode` (EMV fields and their checksum).

`Bytes` holds integers of fixed width and their big-endian codecs; `Wrappers`, `Clock` and
`Division` are shared by several modules.

Cryptography is abstract: AES, HMAC-SHA1 and CRC-32 are function-valued parameters,
so everything holds for any such functions.  Clocks, random numbers, the answers of
the relay and the order in which a Go map is walked are arguments or free choices.

## Where the code does less than it seems to

Each of these is proved, with the exact condition under which the code does meet the
expectation.

- A NAL unit comes out of the depacketizer as it went in exactly when it is fragmented
  and at most 4 MiB, or fits one packet and has type 1 to 23 (`RoundTripIff`).
- The receiver's rollover count only steps when the sequence number falls by more than
  half its range, so the receiver's index is the sender's exactly when the first arrival
  comes before the first wrap and no gap hides such a fall (`TrackedIff`); every gap of at
  most 32767 packets is safe.
- Lost audio is replaced by silence exactly when each hole is at most 8000 samples and
  the 32-bit clock has not come round since the anchor (`TimelineRestored`).
- The comment at cmd/server/recorder.go:184-186 says that a side no longer overlaps
  itself.  That holds exactly when each of its frames is clear of the one before: it does
  not arrive so early that it is put back, and the one before does not start before the
  recording, unless the new frame is put at an arrival past the other's end in the track
  (`ApartIff`, `NeverOverlapsIff`).  Both ways to fail occur: a burst of frames that runs
  ahead of the clock (`BurstOverlaps`), and a side whose first frame starts before the
  recording's (`OwnSideOverlaps`).
- An incoming call is left waiting exactly when it is answered while a relay is open and
  nothing under way will say so: every opened relay has reported, and no accept handler
  saw one (`StepAwake`, `AlwaysAwakeIff`, `StaysStuck`).  Relays of incoming calls are
  dialed after the answer (internal/voip/call/callmanager.go:230-232), and the endpoints
  of a transport message are unusable (internal/voip/signaling/signaling_parse.go:52-58),
  so this takes an accept event for an incoming call; `LateAnswerReachable` is such a run.
- Two accepts handled at the same time can take the call from each other
  (`OverlapStealsCall`): the acceptor changes exactly when a handler for another device
  commits (`AcceptorChangesIff`).  Events do arrive one at a time
  (cmd/server/session.go:445-462).
- A retry delay is the one that is meant, whatever the jitter, exactly when its longest
  fits a duration (`MeantIff`).  The first that does not can be one second, so over a job's
  life the delays never shrink exactly as long as they fit, for a base delay that fits
  (`NeverShrinkIff`); with the default of ten seconds attempt 31 is the first to fail
  (`DefaultCollapses`).
- Each campaign's loop looks at a line's last dial and dials on it in two steps, with no
  lock over both (internal/platform/dialer/scheduler.go:201-223), so two campaigns that share
  a line can dial on it at the same instant (`RaceDialsTwice`).  That is the only way two
  dials on a line come too close: one of another loop falls between the check and the dial
  (`LinePaced`); a loop always paces its own dials (`OwnLinesPaced`).
- Two tenants can take each other's idempotency keys exactly when one's id is the other's
  followed by a colon and possibly more (`TenantsCollideIff`).
- A Pix code can be split again exactly when the key has at most 77 bytes and the amount
  at most 99 (`CodeSplitsIff`).
- `Unprotect` cuts off the authentication tag without comparing it, so a packet is accepted
  with any other tag, and what is long enough behind a header is always accepted
  (`TagNotCompared`, `OpenAnyTag`).

## Model

| member | source | states |
|---|---|---|
| AnnexB.AnnexBStartCodeLen | internal/voip/transport/h264_packet.go:118-129 | the length of the start code at an offset, 0 when there is none |
| AnnexB.SplitAnnexB | internal/voip/transport/h264_packet.go:90-116 | the scan with its moving start finds exactly the units between start codes, without trailing zeros |
| AnnexB.SplitInvertsStream | internal/voip/transport/h264_packet.go:90-116 | whatever comes before the first start code, units framed with any mixture of three and four byte start codes and extra zeros are recovered |
| AnnexB.NothingFound | internal/voip/transport/h264_packet.go:90-116 | without a start code there is no unit |
| AnnexB.SplitCanonical | internal/voip/transport/h264_packet.go:90-116 | no unit found is empty, holds a start code, or (but for the last) ends in zero |
| AnnexB.SplitJoin | internal/voip/transport/h264_packet.go:90-116 | such units joined with four byte start codes split into themselves |
| AnnexB.SplitJoinSplit | internal/voip/transport/h264_packet.go:90-116 | split after join after split is split, for any bytes |
| H264Packet.PackageH264NALU | internal/voip/transport/h264_packet.go:11-55 | the offset loop produces the FU-A payloads of the unit |
| H264Packet.PackageH264STAPA | internal/voip/transport/h264_packet.go:57-88 | an aggregate of units that fit, or nothing |
| H264Packet.SplitStapA | internal/voip/transport/h264_packet.go:152-167 | the units of an aggregate, up to the first impossible size |
| H264Packet.H264Depacketizer.Depacketize | internal/voip/transport/h264_packet.go:138-210 | one payload changes the reassembly state and yields units as the state machine says |
| WireLayout.OtherPayloads | internal/voip/transport/h264_packet.go:138-170 | what becomes of a payload of any type but a fragment, from any state |
| WireLayout.FragmentPayload | internal/voip/transport/h264_packet.go:170-210 | what becomes of any fragment, from any state |
| WireLayout.AggregateUnits | internal/voip/transport/h264_packet.go:152-167 | the units of any aggregate, well formed or not |
| H264Packet.FragmentsWellFormed | internal/voip/transport/h264_packet.go:11-55 | every fragment has at most 800 bytes, the start bit is on the first only, the end bit on the last only, never both |
| H264Packet.RoundTrip | internal/voip/transport/h264_packet.go:11-210 | from any state, a deliverable unit's payloads yield nothing until the last and then exactly the unit |
| H264Packet.RoundTripIff | internal/voip/transport/h264_packet.go:11-210 | with no fragment open, that happens exactly for deliverable units |
| H264Packet.OverlongLost | internal/voip/transport/h264_packet.go:186-191 | a unit over 4 MiB yields nothing at all |
| H264Packet.AggregateRoundTrip | internal/voip/transport/h264_packet.go:57-167 | an aggregate depacketizes, from any state, to the units it was made of, and fits one packet |
| WireLayout.FragmentLayout | internal/voip/transport/h264_packet.go:22-55 | each fragment byte by byte: type 28, start and end bits, the unit's type and 798 of its bytes |
| WireLayout.ShortUnit | internal/voip/transport/h264_packet.go:11-21 | a unit of at most 800 bytes is its own payload |
| WireLayout.AggregateLayout | internal/voip/transport/h264_packet.go:57-88 | when units are aggregated, and the aggregate byte by byte |
| WireLayout.MaxNriIs | internal/voip/transport/h264_packet.go:66-79 | its reference indicator is the highest of its units |
| WireLayout.DeliverableIff | internal/voip/transport/h264_packet.go:186-191 | the units a peer can recover: type 1 to 23 if short, and at most 4 MiB |
| Rtp.Encode | internal/voip/media/rtp.go:49-78 | the header is written at the front of the caller's buffer and the rest stays, or the buffer is too short and untouched |
| Rtp.DecodeRtpHeader | internal/voip/media/rtp.go:80-124 | the offset loops read the fields, or refuse short and foreign packets |
| Rtp.HeaderRoundTrip | internal/voip/media/rtp.go:49-124 | a header decodes to itself exactly when every field fits its bits |
| WireLayout.HeaderFlags | internal/voip/media/rtp.go:49-54 | the first two bytes of a header bit by bit, as section 5.1 of RFC 3550 draws them |
| WireLayout.HeaderLayout | internal/voip/media/rtp.go:49-63 | the rest of the fixed header byte by byte, as section 5.1 of RFC 3550 draws it |
| WireLayout.HeaderTail | internal/voip/media/rtp.go:65-77 | sources and extension behind it, section 5.3.1 of RFC 3550 |
| WireLayout.CsrcLayout | internal/voip/media/rtp.go:65-69 | four bytes for each source |
| WireLayout.DecodeRefuses | internal/voip/media/rtp.go:80-124 | which headers are refused, and that a cut extension is read as none |
| Rtp.RtpSession.constructor | internal/voip/media/rtp.go:163-172 | a session starts at its random sequence number and timestamp |
| Rtp.RtpSession.AdvanceTimestamp | internal/voip/media/rtp.go:186-188 | the timestamp advances modulo 2^32 |
| Rtp.RtpSession.CreatePacketWithDuration | internal/voip/media/rtp.go:194-202 | the packet carries the counters, which then advance and wrap |
| Rtp.RtpSession.CreatePacket | internal/voip/media/rtp.go:182-184 | the same with the session's own packet length |
| WireLayout.SessionPacket | internal/voip/media/rtp.go:194-202 | the bytes of a session's packet |
| WireLayout.SessionRun | internal/voip/media/rtp.go:182-202 | n packets advance sequence number and timestamp by n and n durations, modulo their widths |
| Srtp.SrtpContext.constructor | internal/voip/media/srtp.go:39-60 | keys derived under the three labels, rollover count zero |
| Srtp.SrtpContext.UpdateRollover | internal/voip/media/srtp.go:124-136 | the rollover count after one sequence number |
| Srtp.SrtpContext.GenerateIV | internal/voip/media/srtp.go:142-159 | salt masked by ssrc and index, last two bytes zero |
| Srtp.SrtpContext.XorInto | internal/voip/media/srtp.go:208-215 | the key stream is applied in place and nothing else changes |
| Srtp.SrtpContext.ComputeAuthTag | internal/voip/media/srtp.go:161-169 | the code of the packet and its rollover count, cut to length |
| Srtp.SrtpContext.Protect | internal/voip/media/srtp.go:72-95 | header, cipher text and tag at the updated rollover count |
| Srtp.SrtpContext.Unprotect | internal/voip/media/srtp.go:97-122 | the packet opened at the updated rollover count, or an error that changes nothing |
| Srtp.OpenSeal | internal/voip/media/srtp.go:72-122 | at the sender's rollover count a sealed packet opens to what was sealed; an empty payload is refused |
| Srtp.TagOnWire | internal/voip/media/srtp.go:86-93 | the tag on the wire is the code of all bytes before it and of the rollover count |
| WireLayout.SealLayout | internal/voip/media/srtp.go:72-95 | header as it is, each payload byte masked by AES at the counter of section 4.1.1 of RFC 3711 |
| WireLayout.IVLayout | internal/voip/media/srtp.go:142-159 | the IV byte by byte |
| WireLayout.KeysLayout | internal/voip/media/srtp.go:39-60 | the three session keys from the master key under labels 0, 1 and 2, and the length of the tag |
| WireLayout.KeyLengths | internal/voip/media/srtp.go:193-215 | the lengths of master key and salt that are taken |
| WireLayout.XorBitAt | internal/voip/media/srtp.go:208-215 | exclusive or, bit by bit |
| Srtp.OpenAnyTag | internal/voip/media/srtp.go:97-122 | behind a header anything longer than a tag is decrypted, whatever the tag, and anything else refused |
| Srtp.TagNotCompared | internal/voip/media/srtp.go:97-122 | a protected packet with any other tag comes out as it was protected |
| Srtp.UnprotectSeal | internal/voip/media/srtp.go:72-122 | a receiver whose count agrees recovers header and payload |
| SrtpRuns.UpdateTracks | internal/voip/media/srtp.go:124-136 | the count follows the true index over a gap exactly when the gap hides no wrap |
| SrtpRuns.SenderTracks | internal/voip/media/srtp.go:124-140 | the sender's count is its true index, over any number of wraps |
| SrtpRuns.ReceiverTracks | internal/voip/media/srtp.go:124-140 | so is the receiver's, for any in-order subsequence that starts before the first wrap with safe gaps |
| SrtpRuns.TrackedIff | internal/voip/media/srtp.go:124-140 | the receiver's index equals the sender's on every packet exactly for such arrivals |
| SrtpRuns.LossyDelivery | internal/voip/media/srtp.go:72-140 | every packet that arrives so is unprotected to exactly what was protected |
| SrtpRuns.IVInjective | internal/voip/media/srtp.go:142-159 | different streams or indices give different counter blocks |
| SrtpRuns.DisjointCounters | internal/voip/media/srtp.go:142-159 | the counters of two packets of different streams or indices never meet, for payloads up to 2^20 bytes |
| SrtpRuns.SenderIndex | internal/voip/media/srtp.go:138-140 | the index used for the n-th packet is the n-th number, below 2^48 |
| SrtpRuns.NoKeystreamReuse | internal/voip/media/srtp.go:124-159 | the index strictly increases and no two packets of a context share a counter |
| SrtpRuns.StreamsDisjoint | internal/voip/call/callmanager_srtp.go:46-49 | contexts that share their keys, as audio and video do, share no counter while their SSRCs differ |
| VideoPipeline.BuildWhatsappVideoExt | internal/voip/call/video/pipeline.go:104-118 | the 0xDEBE extension, padded to four bytes |
| VideoPipeline.ExtensionElements | internal/voip/call/video/pipeline.go:102-118 | reading the extension's elements gives back media info, frame number and transport sequence |
| VideoPipeline.FindIdr | internal/voip/call/video/pipeline.go:135-141 | whether some unit is a key frame |
| VideoPipeline.PackUnits | internal/voip/call/video/pipeline.go:148-157 | all units but empty ones and delimiters, with start codes between them |
| VideoPipeline.ChooseUnit | internal/voip/call/video/pipeline.go:128-163 | a packed unit exactly when the relay takes it, a key frame is not missing and something is left |
| VideoPipeline.Pipeline.Install | internal/voip/call/video/pipeline.go:72-83 | the sessions and counters a new call starts with |
| VideoPipeline.StreamSsrcs | internal/voip/call/video/pipeline.go:65-70 | the SSRCs of both devices, slot by slot |
| VideoPipeline.OwnSsrcTold | internal/voip/call/video/pipeline.go:16-70 | the SSRC video is sent under is among those told |
| VideoPipeline.SlotsAre | internal/voip/call/video/pipeline.go:15-21 | the slots and their order |
| VideoPipeline.Pipeline.Setup | internal/voip/call/video/pipeline.go:58-89 | sender and receiver states of a new call, an old depacketizer kept, and the stream SSRCs told to the relay; keys AES does not take change nothing |
| VideoPipeline.Pipeline.Reset | internal/voip/call/video/pipeline.go:238-250 | everything dropped |
| VideoPipeline.Pipeline.SendPayloads | internal/voip/call/video/pipeline.go:172-187 | each payload framed, numbered and protected in order |
| VideoPipeline.Pipeline.FeedCaptured | internal/voip/call/video/pipeline.go:120-197 | the packets handed to the relay and the new state, for any access unit |
| VideoPipeline.Pipeline.HandleRelayData | internal/voip/call/video/pipeline.go:199-236 | the frame handed on, if any, and the new state, for any datagram |
| VideoDelivery.SetupInStep | internal/voip/call/video/pipeline.go:58-89 | two pipelines set up with matching keys are in step |
| VideoWire.SentIff | internal/voip/call/video/pipeline.go:120-163 | what makes a capture go out: a relay with at most 48 KiB to send, a picture, and a key frame if one is needed |
| VideoWire.KeptIff | internal/voip/call/video/pipeline.go:146-157 | the units kept are all but empty ones and those of type 9 |
| VideoWire.KeptJoins | internal/voip/call/video/pipeline.go:146-157 | and stay in their order |
| VideoWire.UnitOnWire | internal/voip/call/video/pipeline.go:164-196 | every packet of a unit read off the wire: extension 0xDEBE with kind of frame, frame number and transport number, session fields, timestamp, marker |
| VideoWire.FreshIs | internal/voip/call/video/pipeline.go:72-83 | the counters of a new call |
| VideoWire.EchoDropped | internal/voip/call/video/pipeline.go:199-214 | our own packets, and those that cannot be read, change nothing |
| VideoDelivery.UnitsFollow | internal/voip/call/video/pipeline.go:164-196 | from one sent unit to the next the numbers go on without a gap and the timestamp steps by one frame |
| VideoDelivery.FrameSplits | internal/voip/call/video/pipeline.go:146-157 | a frame of the kept units splits into exactly those units |
| VideoDelivery.AggregateNeverItself | internal/voip/transport/h264_packet.go:152-167 | a unit mistaken for an aggregate never comes out as itself |
| VideoDelivery.CaptureDelivered | internal/voip/call/video/pipeline.go:120-236 | end to end: the peer emits the one frame that splits into the sent unit without delimiters, exactly when the unit is deliverable, and stays in step |
| VideoDelivery.RunDelivered | internal/voip/call/video/pipeline.go:120-236 | any run of deliverable captures delivers exactly the frames owed, in order, over any number of wraps |
| AudioTimeline.PeerAudio.AlignPeerAudio | internal/voip/call/callmanager_media.go:178-203 | padding, re-anchoring and the new timeline for one frame |
| AudioTimeline.AlignIs | internal/voip/call/callmanager_media.go:178-203 | any frame, lost, late or first: how much silence is put before it and where the timeline then stands |
| AudioTimeline.PlayedCounts | internal/voip/call/callmanager_media.go:178-203 | for any packets, audioPlayedSamples counts what was emitted since the last anchor |
| AudioTimeline.StepPads | internal/voip/call/callmanager_media.go:189-202 | the silence put before a frame is never longer than the hole, and equal to it exactly when the hole is empty or bridged |
| AudioTimeline.PlayedIff | internal/voip/call/callmanager_media.go:178-203 | over any frames in order, the output is the true audio exactly when every hole is bridged, and never longer |
| AudioTimeline.TimelineRestored | internal/voip/call/callmanager_media.go:178-203 | the same from the first frame received |
| AudioTimeline.ShortLossRestored | internal/voip/call/callmanager_media.go:178-203 | holes of at most 8000 samples within 2^32 samples are all made good |
| AudioTimeline.CaptureSender.FeedCapturedPCM | internal/voip/call/callmanager_media.go:22-32 | captured audio is appended and only the newest four frames kept |
| AudioTimeline.CaptureSender.SetHeld | internal/voip/call/callmanager.go:107-109 | held, with or without music, from its start |
| AudioTimeline.CaptureSender.ClearHeld | internal/voip/call/callmanager.go:124-125 | no longer held |
| AudioTimeline.CaptureSender.NextMohFrame | internal/voip/call/callmanager_media.go:98-113 | the next samples of the hold music, round and round |
| AudioTimeline.CaptureSender.NextFrame | internal/voip/call/callmanager_media.go:77-89 | the frame sent on a tick: hold music, silence or captured audio |
| AudioTimeline.BufferRefinesTape | internal/voip/call/callmanager_media.go:22-113 | any run of captures, holds, resumes and ticks sends exactly what a reading head on the tape of all captured audio sends, with each hold's music from its start and unbroken |
| AudioTimeline.HoldMusic | internal/voip/call/callmanager.go:98-112 | from a hold on, the ticks until the next resume send the music from its first sample, round and round without a break; the next hold starts it over |
| AudioTimeline.HeldThenResumed | internal/voip/call/callmanager.go:98-128 | a hold and its resume leave the captured samples alone |
| Recorder.MixFrameInto | cmd/server/recorder.go:187-212 | the frame is added and clamped where it covers the track, within the limit |
| Recorder.ClampIs | cmd/server/recorder.go:203-209 | what is in range stays, the rest goes to the end it is beyond |
| Recorder.CallRecorder.PlaceFrame | cmd/server/recorder.go:156-182 | cursors, offset and track after one frame |
| Recorder.MixedIsClampedSum | cmd/server/recorder.go:156-212 | after any frames each sample is the sum, clamped in arrival order, of the frames that cover it, and the track is as long as the furthest |
| Recorder.TrackInRange | cmd/server/recorder.go:187-212 | every sample is in [-1, 1] and the track at most an hour long |
| Recorder.SplicedIff | cmd/server/recorder.go:149-182 | successive frames of a side are spliced on the timeline within 300 ms of their arrival, and in the track exactly when the first does not start before the recording |
| Recorder.FirstAtArrival | cmd/server/recorder.go:164-168 | a side's first frame is put at its arrival |
| Recorder.SplicedInMix | cmd/server/recorder.go:149-182 | when no frame starts before the first, all such frames are spliced in the track |
| Recorder.ApartIff | cmd/server/recorder.go:156-182 | the next frame of a side overlaps the one before in the track exactly when it arrives too early, or the one before starts too early and it does not arrive late enough |
| Recorder.NeverOverlapsIff | cmd/server/recorder.go:149-186 | in a whole recording no two frames of a side overlap exactly when each is clear of the one before |
| Recorder.BurstOverlaps | cmd/server/recorder.go:163-169 | seventeen frames of one side that arrive together: the last is put on the first |
| Recorder.OwnSideOverlaps | cmd/server/recorder.go:177-186 | a concrete call in which a side's first frame starts before the recording and the next overlaps it |
| CallState.CallInfo.NewOutgoingCall | internal/voip/call/callstate.go:42-56 | the state of a call that is placed |
| CallState.CallInfo.NewIncomingCall | internal/voip/call/callstate.go:58-73 | the state of a call that comes in |
| CallState.CallInfo.ApplyTransition | internal/voip/call/callstate.go:123-219 | a transition is taken exactly in its states, and a refused one changes nothing |
| CallState.MovesIff | internal/voip/call/callstate.go:123-219 | the lifecycle as a graph: who moves a call to each state, and from where |
| CallState.FieldsAfter | internal/voip/call/callstate.go:123-219 | what any transition does to each field: times, reason, duration, microphone and camera |
| CallState.FreshIs | internal/voip/call/callstate.go:42-73 | the state of a new call in either direction |
| CallState.LifecycleConsistent | internal/voip/call/callstate.go:123-219 | in every run Ended and EndedAt coincide, active calls were accepted and then connected, and the duration is the whole seconds from connection to end |
| CallState.EndedAbsorbs | internal/voip/call/callstate.go:179-216 | nothing of an ended call changes any more |
| CallState.TimestampsAreHistory | internal/voip/call/callstate.go:123-219 | each timestamp is the time of the one transition that set it, taken at most once |
| RelayTransport.SctpRelayManager.CountOpenLocked | internal/voip/transport/sctprelay.go:401-409 | the number of registered open connections |
| RelayTransport.SctpRelayManager.HasConnection | internal/voip/transport/sctprelay.go:429-438 | whether there is one |
| RelayTransport.SctpRelayManager.ConnectToRelay | internal/voip/transport/sctprelay.go:159-171 | a connection is registered before it is dialed |
| RelayTransport.SctpRelayManager.OnOpen | internal/voip/transport/sctprelay.go:197-213 | opened and reported unless two are open |
| RelayTransport.SctpRelayManager.FailConnection | internal/voip/transport/sctprelay.go:452-462 | failed once and removed |
| RelayTransport.SctpRelayManager.CloseConnection | internal/voip/transport/sctprelay.go:464-475 | closed and removed |
| RelayTransport.SctpRelayManager.ConfigureRelays | internal/voip/transport/sctprelay.go:128-157 | which relays are dialed, and that each is registered |
| RelayTransport.AllRegistered | internal/voip/transport/sctprelay.go:128-171 | every relay that is dialed is registered, and nothing else |
| RelayTransport.OpenAfterOpening | internal/voip/transport/sctprelay.go:197-213 | which connections are open after one opens |
| RelayTransport.OpenAfterDialing | internal/voip/transport/sctprelay.go:159-171 | and after one is dialed |
| RelayTransport.OpenAfterFailing | internal/voip/transport/sctprelay.go:452-462 | and after one fails |
| RelayTransport.OpenAfterClosing | internal/voip/transport/sctprelay.go:464-475 | and after one is closed |
| RelayTransport.SameIdIff | internal/voip/transport/sctprelay.go:133-141 | connections are told apart by address, port and token id |
| RelayTransport.OpenedCapped | internal/voip/transport/sctprelay.go:197-206 | opening keeps at most two registered connections open |
| RelayTransport.DialsWithinLimit | internal/voip/transport/sctprelay.go:128-157 | never beyond the limit of three, never one already known |
| RelayTransport.DialsAreGiven | internal/voip/transport/sctprelay.go:133-141 | what is dialed is what was given, with the default port where there was none |
| RelayChoice.SortedOrdered | internal/voip/signaling/relayack.go:165-179 | sorted by round trip time, unknown last, ties as announced |
| RelayChoice.OnlyOneOrder | internal/voip/signaling/relayack.go:165-179 | there is only one such arrangement, so any stable sort gives it |
| RelayChoice.BeforeIff | internal/voip/signaling/relayack.go:165-179 | known round trip times first, shorter first, ties as announced |
| RelayChoice.BuildRelayConfigs | internal/voip/call/callmanager_relay.go:38-64 | the first usable endpoint of each address, with its tokens |
| RelayChoice.UsableIff | internal/voip/call/callmanager_relay.go:42-47 | which endpoints can be used |
| RelayChoice.ConfigIs | internal/voip/call/callmanager_relay.go:53-61 | what a configuration carries of its endpoint |
| RelayChoice.ChosenIff | internal/voip/call/callmanager_relay.go:38-64 | an endpoint is configured exactly when it is the best usable one of its address |
| RelayChoice.ChosenOncePerAddress | internal/voip/call/callmanager_relay.go:38-64 | every address with a usable endpoint once, in order of round trip time |
| RelayChoice.FirstThreeDialed | internal/voip/transport/sctprelay.go:128-157 | an empty manager dials exactly the first three |
| CallProtocol.CallManager.StartCall | internal/voip/call/callmanager.go:136-165 | refused while a call is in progress, otherwise a fresh outgoing call |
| CallProtocol.CallManager.OfferIsSent | internal/voip/call/callmanager.go:172-176 | the callee's devices are kept and the call rings |
| CallProtocol.CallManager.HandleCallOffer | internal/voip/call/callmanager_signaling.go:40-56 | a fresh incoming call takes the place of any other |
| CallProtocol.CallManager.AcceptCall | internal/voip/call/callmanager.go:196-214 | answered exactly when it is this call and it rings |
| CallProtocol.CallManager.RejectCall | internal/voip/call/callmanager.go:237-247 | rejected if it still rings here |
| CallProtocol.CallManager.EndCall | internal/voip/call/callmanager.go:254-265 | ended unless it was |
| CallProtocol.CallManager.HoldCall | internal/voip/call/callmanager.go:98-112 | an active call is held and its music restarts; any other is left alone |
| CallProtocol.CallManager.ResumeCall | internal/voip/call/callmanager.go:115-128 | a held call is resumed; any other is left alone |
| CallProtocol.CallManager.CheckAccept | internal/voip/call/callmanager_signaling.go:97-112 | an accept goes on unless another device was first |
| CallProtocol.CallManager.CommitAccept | internal/voip/call/callmanager_signaling.go:128-152 | the acceptor, the fan-out and whether a relay is connected, in one section |
| CallProtocol.CallManager.MediaIsConnected | internal/voip/call/callmanager_signaling.go:192-199 | a waiting call becomes active |
| CallProtocol.CallManager.OnRelayConnected | internal/voip/call/callmanager_relay.go:25-36 | the same when a relay reports |
| CallProtocol.CallManager.HandleCallTerminate | internal/voip/call/callmanager_signaling.go:289-317 | ends the call unless it comes from a device that did not answer |
| CallProtocol.SiblingsAreOthers | internal/voip/call/callmanager_signaling.go:143-150 | the fan-out names exactly the other devices |
| CallProtocol.AcceptArrivesIff | internal/voip/call/callmanager_signaling.go:97-119 | an accept is taken up exactly when no other device was first and it is well formed |
| CallProtocol.CommitAccepts | internal/voip/call/callmanager_signaling.go:128-136 | it makes a ringing call wait for media from that time on |
| CallProtocol.CommitTells | internal/voip/call/callmanager_signaling.go:128-152 | the first accept tells all other devices, a later one none |
| CallProtocol.ReportConnects | internal/voip/call/callmanager_signaling.go:190-199 | a waiting call becomes active at that time, and nothing becomes of any other |
| CallProtocol.HoldsAndResumes | internal/voip/call/callmanager.go:98-128 | what hold and resume do to an active or held call, and to no other |
| CallProtocol.AlwaysSane | internal/voip/call/callmanager_relay.go:25-36 | in every interleaving at most two relays are registered and open, media is taken as connected at most once, and held means on hold until the end |
| CallProtocol.StepAwake | internal/voip/call/callmanager_signaling.go:128-203 | a step loses the wakeup exactly when it is an answer that finds a relay open and nothing under way |
| CallProtocol.AlwaysAwakeIff | internal/voip/call/callmanager.go:196-232 | in every interleaving a call is awake all the time exactly when no answer comes too late |
| CallProtocol.AcceptedIsAccepted | internal/voip/call/callmanager_signaling.go:128-136 | in every run of an outgoing call, a call some device was taken to have answered was accepted, unless it is over |
| CallProtocol.NoLostWakeup | internal/voip/call/callmanager_signaling.go:128-203 | in every interleaving on an outgoing call, once all is quiet a call that a device answered, with an open relay, is not waiting, and media was connected exactly once |
| CallProtocol.NoLostWakeupIncoming | internal/voip/call/callmanager.go:196-232 | the same on an incoming call, if no answer comes too late |
| CallProtocol.AnswerTooLate | internal/voip/call/callmanager.go:196-232 | an answer that finds a relay open, all of them reported, leaves the call waiting with nothing under way that would connect it |
| CallProtocol.LateAnswerReachable | internal/voip/call/callmanager_signaling.go:186-203 | a run from the offer of an incoming call to that state: an accept event, a relay dialed, open and reported, the answer |
| CallProtocol.StaysStuck | internal/voip/call/callmanager.go:196-232 | and stays so through any run that opens no relay, accepts nothing and does not end the call |
| CallProtocol.FirstAcceptWins | internal/voip/call/callmanager_signaling.go:96-152 | with accepts one at a time the acceptor never changes and the one fan-out names exactly the other devices |
| CallProtocol.EndedBy | internal/voip/call/callmanager_signaling.go:289-317 | a call ends exactly when it is ended here, rejected here while it rings, or terminated anonymously, before any answer or by the device that answered; and then for the reason given |
| CallProtocol.AcceptorChangesIff | internal/voip/call/callmanager_signaling.go:128-136 | the acceptor changes exactly when an accept handler for another device commits |
| CallProtocol.OverlapStealsCall | internal/voip/call/callmanager_signaling.go:97-152 | two accepts at once can take the call from each other |
| DialerQueue.InMemReservationEngine.Reserve | internal/platform/dialer/reservation.go:31-39 | a lease is granted exactly when there is none |
| DialerQueue.InMemReservationEngine.Release | internal/platform/dialer/reservation.go:41-46 | a lease is given back |
| DialerQueue.Queue.Enqueue | internal/platform/dialer/queue.go:48-54 | the jobs are added under their ids, later ones winning |
| DialerQueue.EnqueuedLast | internal/platform/dialer/queue.go:48-54 | the last of an id is there |
| DialerQueue.EnqueuedOthers | internal/platform/dialer/queue.go:48-54 | the others stay as they were |
| DialerQueue.Queue.FindNext | internal/platform/dialer/queue.go:61-72 | an eligible job of least position, if there is one, in any order of the map |
| DialerQueue.Queue.NextJob | internal/platform/dialer/queue.go:57-86 | that job is leased and reserved; otherwise nothing changes |
| DialerQueue.NextIff | internal/platform/dialer/queue.go:61-72 | a job is taken that is of the campaign, waits, is due, and comes first |
| DialerQueue.Queue.UpdateJobStatus | internal/platform/dialer/queue.go:89-107 | the status changes and a final one gives the lease back |
| DialerQueue.UpdatedIs | internal/platform/dialer/queue.go:89-107 | status, start and end times, and which statuses give the lease back; other jobs are untouched |
| DialerQueue.PlanDelay | internal/platform/dialer/queue.go:130-146 | the delay with its 64-bit arithmetic, jitter, truncation and floor |
| DialerQueue.Queue.HandleRetry | internal/platform/dialer/queue.go:110-152 | one more attempt after the delay, or failed for good |
| DialerQueue.RetriedIs | internal/platform/dialer/queue.go:109-152 | one more attempt and waiting, or failed; no lease either way |
| DialerQueue.RetryWaits | internal/platform/dialer/queue.go:57-152 | a retried job may be dialed again exactly once its delay is over |
| RetryDelays.BackoffIs | internal/platform/dialer/queue.go:130-137 | in range no bit of the backoff is lost |
| RetryDelays.DelaysNeverShrink | internal/platform/dialer/queue.go:126-146 | whatever the jitters the next delay is never shorter, and always longer exactly when the delay before jitter is at least 2 s |
| RetryDelays.DelaysNonDecreasing | internal/platform/dialer/queue.go:126-146 | over a job's life in range the delays never shrink |
| RetryDelays.MeantIff | internal/platform/dialer/queue.go:126-146 | a delay is the jittered backoff, whatever the jitter, exactly when its longest fits a 64-bit duration |
| RetryDelays.FirstOutCollapses | internal/platform/dialer/queue.go:136-146 | the first delay that does not fit can be one second, after a longer one |
| RetryDelays.NeverShrinkIff | internal/platform/dialer/queue.go:126-146 | up to attempt n the delays never shrink, whatever the jitters, exactly when that of attempt n fits, for a base delay that fits |
| RetryDelays.HugeBase | internal/platform/dialer/queue.go:130-146 | a base delay that does not fit needs that proviso: one of 380 years collapses at once |
| RetryDelays.DefaultCollapses | internal/platform/dialer/queue.go:130-146 | with the default of ten seconds attempt 30 still waits 170 years and attempt 31 one second |
| RetryDelays.DelayCollapses | internal/platform/dialer/queue.go:136 | from attempt 65 on every delay is one second |
| DialerRuns.AlwaysSafe | internal/platform/dialer/queue.go:57-152 | dispatches, leases and dial counts stay consistent in every interleaving |
| DialerRuns.QueueSafe | internal/platform/dialer/scheduler.go:216-259 | a waiting job is neither leased nor dispatched, so NextJob is never refused; no job is in two dispatches; no job is dialed more than once plus the attempts left to it |
| DialerRuns.EnqueuedIs | internal/platform/dialer/queue.go:48-54 | an enqueued job waits in the queue, never dialed, and nothing else moves |
| DialerRuns.TakenAndDialed | internal/platform/dialer/scheduler.go:215-236 | a job whose turn it is becomes reserved and leased, and its dial is counted and timed |
| DialerRuns.Rings | internal/platform/dialer/scheduler.go:231-248 | a dial that works leaves the job ringing, and its dispatch goes on exactly in a campaign with an AI |
| DialerRuns.Session | internal/platform/dialer/scheduler.go:248-258 | there the session starts, then the callee is greeted and the dispatch is over |
| DialerWaits.DialsApart | internal/platform/dialer/queue.go:57-152 | in every interleaving a job is dialed again only later than its last dial by more than the delay of the attempt |
| DialerWaits.BackoffKept | internal/platform/dialer/queue.go:109-152 | so by four fifths of the doubled base delay, less a second, as long as that is in range |
| DialerTermination.StepDoomed | internal/platform/dialer/scheduler.go:231-242 | when dials fail, each step brings exactly one job closer to its end |
| DialerTermination.SomethingToDo | internal/platform/dialer/queue.go:57-86 | unless all jobs are over, some step is possible |
| DialerTermination.AllFail | internal/platform/dialer/queue.go:109-152 | every such run is bounded and ends with every job FAILED, unleased, after exactly one dial per attempt |
| DialerScheduler.FilterEligibleInstances | internal/platform/dialer/scheduler.go:263-274 | the healthy lines with a free slot, in order |
| DialerScheduler.CountSlots | internal/platform/dialer/scheduler.go:173-186 | the free slots under the campaign's limit |
| DialerScheduler.OneMoreLine | internal/platform/dialer/scheduler.go:167-186 | what one line more does to the free slots |
| DialerScheduler.Scheduler.PickLine | internal/platform/dialer/scheduler.go:160-214 | the line whose turn it is, when it has rested |
| DialerScheduler.ChecksIff | internal/platform/dialer/scheduler.go:201-214 | when a line has rested |
| DialerScheduler.GoesOn | internal/platform/dialer/scheduler.go:215-227 | a loop that finds no job changes nothing but may check again; one that finds a job dials the checked line and sets its time |
| DialerScheduler.PauseBounds | internal/platform/dialer/scheduler.go:201-210 | the pause is within a fifth of the interval, above it for a positive random number |
| DialerScheduler.IntervalIs | internal/platform/dialer/scheduler.go:202-205 | five seconds unless set |
| DialerScheduler.LinesAreFree | internal/platform/dialer/scheduler.go:263-274 | only healthy lines with a free slot dial |
| DialerScheduler.EachLineOnce | internal/platform/dialer/scheduler.go:193-198 | as many ticks as lines give each line exactly one turn |
| DialerScheduler.LinePaced | internal/platform/dialer/scheduler.go:200-223 | in every interleaving of campaigns' loops, of two dials on a line the later comes at least four fifths of its campaign's interval after the earlier, whatever the jitter, unless the earlier is another loop's and falls between the later one's check and its dial |
| DialerScheduler.OwnLinesPaced | internal/platform/dialer/scheduler.go:200-223 | two dials of one loop on a line are always paced so |
| DialerScheduler.RaceDialsTwice | internal/platform/dialer/scheduler.go:200-223 | two loops that share a line can dial on it at the same instant, whatever their intervals |
| CircuitBreaker.CircuitBreakers.Check | internal/platform/dialer/orchestration.go:182-202 | refused exactly while open and not cooled down; other providers are untouched |
| CircuitBreaker.CheckedIs | internal/platform/dialer/orchestration.go:182-202 | a check let through an open breaker leaves it half open, and no other changes it |
| CircuitBreaker.CircuitBreakers.RecordSuccess | internal/platform/dialer/orchestration.go:205-210 | failures cleared and closed |
| CircuitBreaker.CircuitBreakers.RecordFailure | internal/platform/dialer/orchestration.go:213-223 | counted, and opened at the threshold |
| CircuitBreaker.RefusesIff | internal/platform/dialer/orchestration.go:161-223 | for every run under a monotone clock, refused exactly when the failures since the last success reach the threshold and the latest is within the cooldown |
| CostLedger.OperationCostEngine.RecordCost | internal/platform/dialer/orchestration.go:261-273 | an amount is added once per event id |
| CostLedger.OperationCostEngine.RecordTransaction | internal/platform/dialer/orchestration.go:276-307 | a transaction is kept once per event id and counted when billable |
| CostLedger.KeyIs | internal/platform/dialer/orchestration.go:261-290 | the id an event is recorded under |
| CostLedger.KeptIs | internal/platform/dialer/orchestration.go:290-297 | what is kept of a transaction |
| CostLedger.LedgerIsSums | internal/platform/dialer/orchestration.go:260-319 | a job's cost and a tenant's are the sums over first occurrences of each id |
| CostLedger.RepeatsChangeNothing | internal/platform/dialer/orchestration.go:260-307 | deleting later repeats of each id leaves the same ledger |
| JobEngine.JobStateMachine.Transition | internal/platform/dialer/orchestration.go:122-152 | a move is made exactly when the table allows it |
| JobEngine.MovesIff | internal/platform/dialer/orchestration.go:131-143 | from which states a job can come to each state |
| JobEngine.FinalStays | internal/platform/dialer/orchestration.go:131-143 | final states are never left and no other is stuck |
| JobEngine.EndsOnlyAfterRunning | internal/platform/dialer/orchestration.go:131-143 | a job that completed or failed has run |
| JobEngine.IdempotencyRegistry.CheckOrRegister | internal/platform/dialer/orchestration.go:67-80 | the first job under a scoped key keeps it |
| JobEngine.ScopedKeyInjective | internal/platform/dialer/orchestration.go:74 | tenants of which neither id extends the other by a colon share no key |
| JobEngine.TenantsCollideIff | internal/platform/dialer/orchestration.go:74 | two tenants can take each other's key exactly when one id extends the other by a colon |
| JobEngine.TenantsCollide | internal/platform/dialer/orchestration.go:74 | a concrete pair that collides, and one with a colon that does not |
| JobEngine.RegistryHoldsFirst | internal/platform/dialer/orchestration.go:66-80 | unless another tenant extends this one by a colon or is extended by it, a request is blocked exactly when an earlier one had its tenant and key, and gets the first one's job |
| Stun.EncodeAttribute | internal/voip/transport/stun.go:44-54 | type, length, data and padding to four bytes |
| Stun.BuildStunMessage | internal/voip/transport/stun.go:60-101 | any attribute bytes, then the seals asked for, behind a header that counts them |
| Stun.SealedEncoded | internal/voip/transport/stun.go:60-101 | sealing the encoding of attributes is encoding the sealed attributes |
| Stun.ParseStunResponse | internal/voip/transport/stun.go:210-315 | the loop reads type, class, transaction id, attributes, error and routing id |
| Stun.EncodedAligned | internal/voip/transport/stun.go:44-54 | section 5 of RFC 8489: every body is a multiple of four bytes |
| StunWire.MessageLayout | internal/voip/transport/stun.go:94-101 | a message byte by byte |
| StunWire.AttributeLayout | internal/voip/transport/stun.go:44-54 | an attribute byte by byte |
| StunWire.AttributesLayout | internal/voip/transport/stun.go:60-101 | the attributes follow each other |
| StunWire.SealTypes | internal/voip/transport/stun.go:63-92 | the types and sizes of the two seals |
| StunWire.CodeBytes | internal/voip/transport/stun.go:71-76 | the code is that of its key |
| StunRoundTrip.BuildBindingRequestWithSubs | internal/voip/transport/stun.go:126-153 | the attributes of a binding request |
| StunRoundTrip.BuildAllocateForRelay | internal/voip/transport/stun.go:115-124 | the attributes of an allocate request |
| StunWire.BindingReads | internal/voip/transport/stun.go:126-153 | a binding request as it is read: its type and exactly these attributes in this order |
| StunWire.AllocateReads | internal/voip/transport/stun.go:115-124 | the same for an allocate request |
| StunWire.AddressLayout | internal/voip/transport/stun.go:103-113 | the relayed address byte by byte |
| StunRoundTrip.UnmaskedAddress | internal/voip/transport/stun.go:103-113 | masking the relayed address twice gives it back |
| StunRoundTrip.ReadBackIff | internal/voip/transport/stun.go:282-312 | the loop reads back what was encoded exactly when every attribute starts before the given end |
| StunRoundTrip.ParseBuiltIff | internal/voip/transport/stun.go:44-315 | type and transaction id always come back, the attributes exactly when they fit the 16-bit length |
| StunRoundTrip.IntegrityCovers | internal/voip/transport/stun.go:63-76 | section 14.5 of RFC 8489: MESSAGE-INTEGRITY covers the message before it, with a length up to its own end |
| StunRoundTrip.FingerprintCovers | internal/voip/transport/stun.go:78-92 | section 14.7 of RFC 8489: FINGERPRINT covers the whole message before it, whose length counts it |
| StunRoundTrip.ParseSealed | internal/voip/transport/stun.go:60-315 | parsing gives back the given attributes followed by exactly the seals asked for, if and only if they fit the 16-bit length together |
| StunRoundTrip.TypeReads | internal/voip/transport/stun.go:238-247 | section 5 of RFC 8489: class and method are read from between each other's bits |
| StunRoundTrip.ErrorReads | internal/voip/transport/stun.go:299-306 | the last error code of a message is reported, with its reason |
| StunWire.ParsedIff | internal/voip/transport/stun.go:210-236 | what the parser takes, and what it says of a ping |
| StunWire.AttributesAre | internal/voip/transport/stun.go:282-312 | the attributes of any bytes, well formed or not |
| StunWire.RoutingIdReads | internal/voip/transport/stun.go:307-309 | the routing id of a success response |
| StunWire.ErrorIs | internal/voip/transport/stun.go:299-306 | the error of any attributes |
| Subscriptions.EncodeVarint | internal/voip/transport/subscriptions.go:3-12 | seven bits at a time, low first |
| Subscriptions.VarintRoundTrip | internal/voip/transport/subscriptions.go:3-12 | a variable-length integer is read back, whatever follows |
| Subscriptions.MessageRoundTrip | internal/voip/transport/subscriptions.go:14-23 | decoding gives back any fields that were encoded |
| Subscriptions.FieldExamples | internal/voip/transport/subscriptions.go:3-23 | the published examples of the encoding |
| Subscriptions.BuildSSRCSubscriptionList | internal/voip/transport/subscriptions.go:34-59 | one entry for each ssrc that is not zero |
| Subscriptions.BuildSenderSubscriptions | internal/voip/transport/subscriptions.go:25-32 | the one entry of a sender |
| Subscriptions.ListRoundTrip | internal/voip/transport/subscriptions.go:34-59 | decoding a list gives back exactly the ssrcs that are not zero, in order, with their pids |
| Subscriptions.EntryFieldsAre | internal/voip/transport/subscriptions.go:38-44 | the fields of an entry |
| Subscriptions.SenderReads | internal/voip/transport/subscriptions.go:25-32 | the fields of a sender's payload |
| Crc16.Crc16Ccitt | cmd/server/pixsend.go:34-47 | the nested loops compute the bitwise checksum |
| Crc16.CheckValue | cmd/server/pixsend.go:32-47 | the published check value 0x29B1 |
| Crc16.BitStepInjective | cmd/server/pixsend.go:39-43 | one bit step loses nothing |
| Crc16.BitStepLinear | cmd/server/pixsend.go:39-43 | and is linear over exclusive or |
| Crc16.OneByteDetected | cmd/server/pixsend.go:32-47 | strings of one length that differ in one byte have different checksums |
| Crc16.BurstDetected | cmd/server/pixsend.go:32-47 | so do strings that differ only within two adjacent bytes |
| PixCode.EmvField | cmd/server/pixsend.go:20-30 | id, length in at least two digits, value |
| PixCode.FieldLayout | cmd/server/pixsend.go:20-30 | a field character by character |
| PixCode.ChecksumText | cmd/server/pixsend.go:113-118 | the checksum as four upper case digits |
| PixCode.ChecksumLayout | cmd/server/pixsend.go:113-118 | the checksum digit by digit |
| PixCode.BuildPixBRCode | cmd/server/pixsend.go:80-119 | the fields in order, closed by their checksum |
| PixCode.SplitJoinIff | cmd/server/pixsend.go:20-30 | splitting by the EMV rule recovers the fields exactly when no value is longer than 99 |
| PixCode.CodeSplitsIff | cmd/server/pixsend.go:80-119 | a code splits into all its fields exactly for keys up to 77 bytes and amounts up to 99 |
| PixCode.CodeReads | cmd/server/pixsend.go:80-119 | every field a reader finds in a code, in order, with its literal id and value |
| PixCode.CodeChecks | cmd/server/pixsend.go:111-118 | a code ends in the checksum of what comes before |
| PixCode.OneCharacterSeen | cmd/server/pixsend.go:111-118 | and no longer does once any one byte before it is another |

## Left out

- AES, HMAC, SHA-1, HKDF, CRC-32, the codecs, ffmpeg, WebRTC and the messaging library: parameters or free steps of the environment.
- Rounding of floating-point numbers: samples, amounts and jitter are real numbers, and the conversion of a float beyond 64 bits is not modelled.
- Packets out of order in SRTP: in-order arrival is a stated assumption of the receiver, whose rollover count never steps back.
- Re-keying during a call and the second use of one call manager: initSrtpKeysLocked and reinitSrtpLocked change keys the protocol steps do not look at.
- The stanzas exchanged (preaccept, transport, mute, receipt) and HandleCallAck and HandleCallTransport beyond the relays they dial: a relay being dialed is a step of its own that may come at any time.
- Concurrent calls of ConfigureRelays: its dials are taken to be registered before the loop goes on; the interleavings allow any connection to be registered at any time.
- The key of a relay connection is the triple its text renders.
- ParseRelayFromAck up to the sorted endpoints: token lookup is single-map bookkeeping.
- A campaign-wide limit on concurrent calls: the scheduler sums only lines that still have a free slot, so there is none to prove.
- Srtp.SrtpContext.Protect: takes headers whose CSRC list is as long as its count says, as every header built or decoded here is.
- Writes of the line times by two loops at once: each step of a loop is one atomic step, and what Go makes of an unsynchronised map is not modelled.
- Relays open but no longer registered: a connection whose id was taken over or removed by a failure of an older one is not counted, as the source does not count it.
- RelayTransport.SctpRelayManager.OnOpen: the close of a surplus connection that it schedules is a step of its own.
- RelayTransport.SctpRelayManager.ConfigureRelays: registers the connections it dials one after another, which the source does concurrently.
- CallProtocol.CallManager.StartCall: leaves out SSRCs, keys, sessions and codec.
- CallProtocol.CallManager.HandleCallOffer: leaves out relay data, key and SSRCs.
- CallProtocol.CallManager.CommitAccept: leaves out peer SSRCs, subscriptions and key setup.
- CallProtocol.CallManager.MediaIsConnected: leaves out the start of the send loop, whose frames are in AudioTimeline.
- CallProtocol.CallManager.OnRelayConnected: leaves out the start of the send loop too.
- RetryDelays.NeverShrinkIff: for a base delay of more than 243 years, which does not fit itself, only MeantIff tells when a delay is right; HugeBase shows that the delays need not shrink then.
- StunRoundTrip.BuildAllocateForRelay: takes the four octets of the address, which the source scans from its text.
- PixCode.BuildPixBRCode: takes name, city, key and transaction id trimmed and folded, and the amount as text.
- VideoPipeline.Pipeline.HandleRelayData: takes datagrams of at least 12 bytes, because the caller drops shorter ones (internal/voip/call/callmanager_media.go:122).
- VideoPipeline.Pipeline.FeedCaptured: one caller at a time, because the source reads and writes its counters in two separate critical sections.
- Stun.ParseStunResponse: reports the transaction id as bytes and leaves out the names of attributes and methods, which only label the numbers.
- HTTP handlers, storage, webhooks, the browser client and role checks: plumbing over libraries that are not part of this model.
