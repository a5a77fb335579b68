# hi-kafka: a verified model

hi-kafka lets PHP processes use Kafka through a worker process on the same host. The
client side (`ext/`) talks to the worker (`worker/`) over a Unix socket with a
hand-written binary protocol (`proto/`). This project models the parts of it whose
correctness is hard to see, and proves what they promise.

| file | what it models |
|---|---|
| `Wire.dfy`, `Utf8.dfy`, `Layouts.dfy`, `OnTheWire.dfy` | the payload grammar: round trip, canonicity, truncation, for every format; its integers and strings; the layout of every payload type; the bytes of the two messages that carry data |
| `Decoders.dfy`, `Encoders.dfy`, `ShortPayloads.dfy`, `Replies.dfy` | the cursor-and-buffer codecs, each proved to implement its layout |
| `RoundTrips.dfy` | each encoder and decoder called one after the other: the three laws for every payload type |
| `Frames.dfy`, `PollReply.dfy`, `DrainedReplies.dfy` | frames, frame streams cut anywhere, the exact size of a poll reply and when a drained batch is lost to it |
| `ConsumerBuffer.dfy`, `Backpressure.dfy`, `StreamLoop.dfy` | the buffer of a subscription, its watermarks, its puller loop with backoff |
| `FlowControl.dfy`, `Fetcher.dfy` | user pauses on top of automatic ones; the pause flag and the fetcher it stands for |
| `ProducerCache.dfy`, `CacheReplacement.dfy`, `CacheCompletes.dfy`, `Registry.dfy` | the lazily built producer against a registry that is overwritten meanwhile |
| `Resubscribe.dfy`, `ResubscribeRaces.dfy`, `ResubscribeHeals.dfy` | virtual subscription ids over changing real ids |
| `SelfHealing.dfy` | retry once, respawn, replay |
| `PooledRpc.dfy`, `Pool.dfy`, `RpcCompletes.dfy` | pooled request/response connections against the sequential handler |
| `Lifetime.dfy`, `Farewell.dfy` | idle self-exit, Goodbye, and what a process does when it exits |

`dafny verify dfyconfig.toml` checks all of it.

## How to read it

Concurrent code is a state machine whose steps are the points where the source awaits
or takes a lock; a main theorem quantifies over every sequence of steps. Code that one
thread runs in place is a class or a method with loops, tied to the function that
specifies it. For the codecs, `Layouts` states the layout of each message, a decoder's
contract is `Agrees(r, rest, XVal, Decode(X, buf))`, an encoder's is
`r == Appended(buf, Encode(X, XVal(m)))`, and `MessageRoundTrip`, `MessageCanonical` and
`MessageTruncated` turn the three laws of the grammar into laws of any such pair.

## Hypotheses

The code does not supply these. Each has a lemma that shows what happens without it, and
most have the exact condition.

- Real subscription ids are not reused (`FreshIds`). The counter restarts in every worker
  process: `ReusedIdServesTheWrongSubscription`. The exact condition is that an id is not
  handed out while it is claimed for other parameters (`AlwaysBoundIff`), and
  `ServedWithOwnParams` asks for no more; `ResubscribedAtMostOnce` asks for fresh ids.
- No virtual id is unsubscribed while a call on it is running (`Quiet`). The code
  subscribes although the entry has vanished: `UnsubscribeRaceResubscribesTwice`. Only that
  branch can repeat a subscription (`RepeatsOnlyVanished`), and `ResubscribedAtMostOnce`
  only asks that it is not taken; `QuietNeverVanishes` supplies that, and
  `SubscribedAgainIff` says exactly how often a vanished entry can be subscribed again.
- A push and its pause check, and a drain and its resume check, are one step. They are
  not: `StuckExactlyByLatePause` says which step gets a subscription stuck,
  `StuckIsReachable` that it happens, `StuckForever` that it stays. Needed for
  `PausedHasWork`, `HighWaterIsPaused` and `Hysteresis`, for which `NeverStuckIff`,
  `HighWaterHoldsIff` and `ResumesEarlyIff` give the exact conditions in the split code; the
  accounting holds without it.
- A user's pause or resume, and an automatic resume, are one step in `UserPauseKept`. They
  are not: `LostExactlyByStaleResume` says which steps lose a user's pause,
  `UserPauseCanBeLost` that it happens. `KeptWithoutOverlap` needs only that a user pause
  does not overlap an automatic resume or a user resume; `AlwaysKeptIff` is exact.
- Pause and resume tasks run in the order they were spawned and succeed, for
  `FlagAndFetcherAgree`. They run on threads of their own: `AgreesIff` is the exact
  condition, `SwappedTasksKillTheFetcher`, `FailedResumeKillsTheFetcher` and `DeadForever`
  what happens otherwise.
- One client process spawns the worker, makes its calls one at a time, and the transport
  fails only because the worker crashed. The last contract clause of `Client.Ensure`
  shows that a worker somebody else spawned is taken as it is, without a replay.
- A socket option can be set between writing a request and reading its reply.
  `OptionFailureHarmlessIff` says exactly when a failure there is harmless and
  `StaleReplyIsRefused` shows the connection that goes back to the pool owing a reply.
  Needed for `IdleOwesNothing`; `RepliesAreOwn` holds without it.
- The cache builds once per cell, not once per version: `OneVersionBuiltTwice`.
  `NoVersionBuiltTwice` and `ReplaceSafeIff` say exactly which replacements the source would
  have to refuse. Registry versions do not wrap; `VersionNamesConfig` says what a wrap takes.
- The drop-one overflow does not bound the buffered bytes by the byte cap:
  `ByteCapIsNotABound`. `ByteCapHoldsIff` says exactly when it does.
- Ticks come at most one check interval apart while the main loop runs (`Punctual`), for
  `SelfExitInTime` and `QuietBeforeIdleExit`.

Some results go beyond what the source's comments say. The default watermarks coincide for
capacities below three, and a byte capacity of zero pauses on the first byte
(`DefaultsOrderedIff`). A resume task that overtakes a pause task, or fails, leaves the
fetcher paused for good (`Fetcher`). The idle period is counted from the last tick that saw
a connection, so the worker may leave up to one check interval early
(`QuietBeforeIdleExit`, `IdleExitCanBeEarly`). A tick that collects the last ended handler
before the join branch does makes the worker miss a Goodbye (`ShortCutTakenIff`,
`GoodbyeCanBeMissed`, `CollectedStaysUntilTimeout`).

## Model

| member | source | states |
|---|---|---|
| `Wire.RoundTrip` | proto/src/payload.rs:131-316 | For every format, every value of it that encodes and every tail, decoding the encoding followed by the tail gives back the value and leaves exactly the tail; list lengths are unbounded, so preallocation caps play no part |
| `Wire.Canonical` | proto/src/payload.rs:143-316 | For every format, bytes that decode are the encoding of what they decode to, followed by the unread rest |
| `Wire.PrefixTruncated` | proto/src/payload.rs:239-316 | For every format, every strict prefix of an encoding is reported as Truncated: never accepted, never a bad tag or bad UTF-8 |
| `Wire.FromBigEndianInverts` | proto/src/payload.rs:277-316 | Reading back a big-endian integer of any width gives the integer |
| `Wire.BigEndianInverts` | proto/src/payload.rs:277-316 | Writing the integer read from bytes gives those bytes |
| `Wire.ByteAt` | proto/src/payload.rs:277-316 | The most significant byte comes first: byte i of w is n / 256^(w − 1 − i) modulo 256 |
| `Wire.SignedBytes` | proto/src/payload.rs:131-141 | A signed field holds a negative number as 256^w plus it; −1 is bytes of all ones, so partition −1 is FF FF FF FF |
| `Utf8.ValidUtf8Iff` | proto/src/payload.rs:295-305 | A byte string is accepted as a string if and only if it is the encoding of some sequence of Unicode scalar values: no overlong forms, no surrogates, nothing above U+10FFFF |
| `OnTheWire.MessageOnTheWire` | proto/src/consumer.rs:238-247 | The bytes of every consumer message that can be sent, field by field: which field comes when, the width of each length and number, big-endian two's complement |
| `OnTheWire.ProduceOnTheWire` | proto/src/payload.rs:132-141 | The same for every produce request that can be sent |
| `Layouts.MessageRoundTrip` | proto/src/rebalance.rs:74-197 | Any decoder that implements a layout returns every encodable message followed by any tail, and stops at its end |
| `Layouts.MessageCanonical` | proto/src/rebalance.rs:93-167 | Whatever bytes such a decoder accepts start with the encoding of the message it returned, which encodes |
| `Layouts.MessageTruncated` | proto/src/rebalance.rs:143-197 | Such a decoder answers Truncated on every strict prefix of every encoding |
| `Layouts.MessageInjective` | proto/src/consumer.rs:225-247 | Different consumer messages have different layout values, headers included |
| `Layouts.PollInjective` | proto/src/consumer.rs:275-301 | The same for poll replies, message by message |
| `Layouts.RebalanceInjective` | proto/src/rebalance.rs:66-141 | The same for rebalance replies: tagged events holding partition lists |
| `Layouts.RequestsInjective` | proto/src/seek.rs:45-108 | The same for the list-carrying requests |
| `Decoders.ReadBytes` | proto/src/payload.rs:307-316 | The length-prefixed read agrees with its format, errors included |
| `Decoders.ReadStr` | proto/src/payload.rs:295-305 | The string read agrees with its format: truncation before UTF-8, and the field name in the error |
| `Decoders.ReadHeaders` | proto/src/payload.rs:181-193 | The header loop agrees with the counted-list format |
| `Decoders.ReadPartitions` | proto/src/rebalance.rs:182-197 | The partition loop agrees with the counted-list format |
| `Decoders.ReadKeyValues` | proto/src/consumer.rs:124-139 | The key/value loop agrees with the counted-list format, for both count widths |
| `Decoders.ReadTopics` | proto/src/consumer.rs:110-124 | The topic loop agrees with the counted-list format |
| `Decoders.ReadMessage` | proto/src/consumer.rs:249-269 | Decoding one consumer message agrees with its layout |
| `Decoders.DecodePollResp` | proto/src/consumer.rs:303-330 | Decoding a poll reply agrees with its layout, invalid tags included |
| `Decoders.ReadEvent` | proto/src/rebalance.rs:93-119 | Decoding one rebalance event agrees with its layout |
| `Decoders.DecodePollRebalanceResp` | proto/src/rebalance.rs:143-167 | Decoding a list of tagged events that hold lists agrees with its layout |
| `Decoders.DecodeSubscribeReq` | proto/src/consumer.rs:110-139 | Decoding a subscribe request agrees with its layout |
| `Decoders.DecodeProduce` | proto/src/payload.rs:143-163 | Decoding a produce request agrees with its layout, with its early length check |
| `Decoders.DecodeSeekReq` | proto/src/seek.rs:110-163 | Decoding either seek mode agrees with its layout, with its early length checks |
| `Decoders.DecodeSendOffsetsReq` | proto/src/send_offsets.rs:65-94 | Decoding a send-offsets request agrees with its layout |
| `Decoders.DecodeOAuthReq` | proto/src/oauth.rs:78-105 | Decoding a token request agrees with its layout |
| `Decoders.DecodePauseResumeReq` | proto/src/pause_resume.rs:79-109 | Decoding a pause/resume request agrees with its layout |
| `Encoders.WriteBytes` | proto/src/payload.rs:277-293 | Appends the length-prefixed bytes of the format, or reports the size that does not fit |
| `Encoders.WriteHeaders` | proto/src/payload.rs:166-179 | The header loop appends the counted-list encoding, or its error |
| `Encoders.WritePartitions` | proto/src/rebalance.rs:170-180 | The partition loop appends the counted-list encoding, or its error |
| `Encoders.WriteMessage` | proto/src/consumer.rs:238-247 | Appends the layout encoding of a consumer message, or its error |
| `Encoders.EncodePollResp` | proto/src/consumer.rs:283-301 | Appends the layout encoding of a poll reply, or its error |
| `Encoders.WriteEvent` | proto/src/rebalance.rs:75-91 | Appends the layout encoding of a rebalance event, or its error |
| `Encoders.EncodePollRebalanceResp` | proto/src/rebalance.rs:123-141 | Appends the layout encoding of a rebalance reply, or its error |
| `Encoders.EncodeSubscribeReq` | proto/src/consumer.rs:89-108 | Appends the layout encoding of a subscribe request, or its error |
| `Encoders.EncodeProduce` | proto/src/payload.rs:132-141 | Appends the layout encoding of a produce request, or its error |
| `Encoders.EncodeSeekReq` | proto/src/seek.rs:71-108 | Appends the layout encoding of either seek mode, or its error |
| `Encoders.EncodeSendOffsetsReq` | proto/src/send_offsets.rs:49-63 | Appends the layout encoding, or its error |
| `Encoders.EncodeOAuthReq` | proto/src/oauth.rs:62-76 | Appends the layout encoding, or its error |
| `Encoders.EncodePauseResumeReq` | proto/src/pause_resume.rs:65-77 | Appends the layout encoding, or its error |
| `ShortPayloads.ShortInjective` | proto/src/consumer.rs:147-487 | Different short payloads have different layout values |
| `ShortPayloads.DecodeRegisterClusterReq` | proto/src/consumer.rs:447-461 | Decoding a register request agrees with its layout |
| `ShortPayloads.EncodeRegisterClusterReq` | proto/src/consumer.rs:434-445 | Appends the layout encoding of a register request, or its error |
| `ShortPayloads.DecodeTxnReq` | proto/src/txn.rs:58-69 | Decoding a transaction request agrees with its layout; operations above 2 are invalid tags |
| `ShortPayloads.EncodeTxnReq` | proto/src/txn.rs:52-56 | Appends the layout encoding of a transaction request, or its error |
| `ShortPayloads.DecodeStatus` | proto/src/consumer.rs:377-391 | Decoding a status reply agrees with its layout, whatever name its invalid tag is reported under |
| `ShortPayloads.EncodeStatus` | proto/src/consumer.rs:364-375 | Appends the layout encoding of a status reply, or its error |
| `ShortPayloads.DecodeSubscribeResp` | proto/src/consumer.rs:167-188 | Decoding a subscribe reply agrees with its layout |
| `ShortPayloads.EncodeSubscribeResp` | proto/src/consumer.rs:153-165 | Appends the layout encoding of a subscribe reply, or its error |
| `ShortPayloads.DecodePollReq` | proto/src/consumer.rs:210-219 | Decoding a poll request agrees with its layout |
| `ShortPayloads.EncodePollReq` | proto/src/consumer.rs:203-208 | Appends the layout encoding of a poll request |
| `ShortPayloads.DecodePollRebalanceReq` | proto/src/rebalance.rs:56-64 | Decoding a rebalance poll request agrees with its layout |
| `ShortPayloads.EncodePollRebalanceReq` | proto/src/rebalance.rs:50-54 | Appends the layout encoding of a rebalance poll request |
| `ShortPayloads.DecodeIdReq` | proto/src/consumer.rs:405-412 | Decoding a commit or unsubscribe request agrees with its layout |
| `ShortPayloads.EncodeIdReq` | proto/src/consumer.rs:400-403 | Appends the layout encoding of such a request |
| `ShortPayloads.DecodeHello` | proto/src/payload.rs:77-82 | Decoding a greeting agrees with its layout |
| `ShortPayloads.EncodeHello` | proto/src/payload.rs:72-75 | Appends the layout encoding of a greeting |
| `Replies.DecodeErrorResp` | proto/src/error.rs:138-153 | Returns the normalised message of the layout value, or the layout's error |
| `Replies.EncodeErrorResp` | proto/src/error.rs:130-136 | Appends the layout encoding of an error reply, or its error |
| `Replies.DecodeProduceResp` | proto/src/payload.rs:239-275 | Returns the normalised message of the layout value, or the layout's error |
| `Replies.EncodeProduceResp` | proto/src/payload.rs:222-237 | Appends the layout encoding of a produce reply, or its error |
| `Replies.ErrorRoundTrip` | proto/src/error.rs:130-153 | Every error reply that encodes is read back as itself, with any tail left over |
| `Replies.ProduceRespRoundTrip` | proto/src/payload.rs:221-275 | Every produce reply that encodes is read back as itself, with any tail left over |
| `Replies.RepliesTruncated` | proto/src/error.rs:138-153 | Every strict prefix of an encoding is answered Truncated by a decoder that normalises, so for error and produce replies too |
| `Replies.ErrorCanonicalIff` | proto/src/error.rs:59-153 | Accepted error bytes re-encode to themselves if and only if the kind code is known and the flag byte is 0 or 1 |
| `Replies.ProduceRespCanonicalIff` | proto/src/payload.rs:239-275 | Accepted produce-reply bytes re-encode to themselves if and only if they acknowledge or their flag byte is 0 or 1 |
| `RoundTrips.SendPollResp` | proto/src/consumer.rs:283-330 | Calling the encoder and then the decoder on a poll reply: with any tail it comes back as itself and the tail is left; cut anywhere it is Truncated |
| `RoundTrips.ReceivePollResp` | proto/src/consumer.rs:283-330 | Calling the decoder and then the encoder: bytes accepted as a poll reply are the bytes written again, followed by the unread rest |
| `RoundTrips.SendPollRebalanceResp` | proto/src/rebalance.rs:123-167 | Calling the encoder and then the decoder on a rebalance reply: with any tail it comes back as itself and the tail is left; cut anywhere it is Truncated |
| `RoundTrips.ReceivePollRebalanceResp` | proto/src/rebalance.rs:123-167 | Calling the decoder and then the encoder: bytes accepted as a rebalance reply are the bytes written again, followed by the unread rest |
| `RoundTrips.SendSubscribeReq` | proto/src/consumer.rs:89-139 | Calling the encoder and then the decoder on a subscribe request: with any tail it comes back as itself and the tail is left; cut anywhere it is Truncated |
| `RoundTrips.ReceiveSubscribeReq` | proto/src/consumer.rs:89-139 | Calling the decoder and then the encoder: bytes accepted as a subscribe request are the bytes written again, followed by the unread rest |
| `RoundTrips.SendProduce` | proto/src/payload.rs:131-163 | Calling the encoder and then the decoder on a produce request: with any tail it comes back as itself and the tail is left; cut anywhere it is Truncated |
| `RoundTrips.ReceiveProduce` | proto/src/payload.rs:131-163 | Calling the decoder and then the encoder: bytes accepted as a produce request are the bytes written again, followed by the unread rest |
| `RoundTrips.SendSeekReq` | proto/src/seek.rs:71-163 | Calling the encoder and then the decoder on a seek request: with any tail it comes back as itself and the tail is left; cut anywhere it is Truncated |
| `RoundTrips.ReceiveSeekReq` | proto/src/seek.rs:71-163 | Calling the decoder and then the encoder: bytes accepted as a seek request are the bytes written again, followed by the unread rest |
| `RoundTrips.SendSendOffsetsReq` | proto/src/send_offsets.rs:49-94 | Calling the encoder and then the decoder on a send-offsets request: with any tail it comes back as itself and the tail is left; cut anywhere it is Truncated |
| `RoundTrips.ReceiveSendOffsetsReq` | proto/src/send_offsets.rs:49-94 | Calling the decoder and then the encoder: bytes accepted as a send-offsets request are the bytes written again, followed by the unread rest |
| `RoundTrips.SendOAuthReq` | proto/src/oauth.rs:62-105 | Calling the encoder and then the decoder on a token request: with any tail it comes back as itself and the tail is left; cut anywhere it is Truncated |
| `RoundTrips.ReceiveOAuthReq` | proto/src/oauth.rs:62-105 | Calling the decoder and then the encoder: bytes accepted as a token request are the bytes written again, followed by the unread rest |
| `RoundTrips.SendPauseResumeReq` | proto/src/pause_resume.rs:65-109 | Calling the encoder and then the decoder on a pause/resume request: with any tail it comes back as itself and the tail is left; cut anywhere it is Truncated |
| `RoundTrips.ReceivePauseResumeReq` | proto/src/pause_resume.rs:65-109 | Calling the decoder and then the encoder: bytes accepted as a pause/resume request are the bytes written again, followed by the unread rest |
| `RoundTrips.SendRegisterClusterReq` | proto/src/consumer.rs:434-461 | Calling the encoder and then the decoder on a register request: with any tail it comes back as itself and the tail is left; cut anywhere it is Truncated |
| `RoundTrips.ReceiveRegisterClusterReq` | proto/src/consumer.rs:434-461 | Calling the decoder and then the encoder: bytes accepted as a register request are the bytes written again, followed by the unread rest |
| `RoundTrips.SendTxnReq` | proto/src/txn.rs:52-69 | Calling the encoder and then the decoder on a transaction request: with any tail it comes back as itself and the tail is left; cut anywhere it is Truncated |
| `RoundTrips.ReceiveTxnReq` | proto/src/txn.rs:52-69 | Calling the decoder and then the encoder: bytes accepted as a transaction request are the bytes written again, followed by the unread rest |
| `RoundTrips.SendSubscribeResp` | proto/src/consumer.rs:153-188 | Calling the encoder and then the decoder on a subscribe reply: with any tail it comes back as itself and the tail is left; cut anywhere it is Truncated |
| `RoundTrips.ReceiveSubscribeResp` | proto/src/consumer.rs:153-188 | Calling the decoder and then the encoder: bytes accepted as a subscribe reply are the bytes written again, followed by the unread rest |
| `RoundTrips.SendPollReq` | proto/src/consumer.rs:203-219 | Calling the encoder and then the decoder on a poll request: with any tail it comes back as itself and the tail is left; cut anywhere it is Truncated |
| `RoundTrips.ReceivePollReq` | proto/src/consumer.rs:203-219 | Calling the decoder and then the encoder: bytes accepted as a poll request are the bytes written again, followed by the unread rest |
| `RoundTrips.SendPollRebalanceReq` | proto/src/rebalance.rs:50-64 | Calling the encoder and then the decoder on a rebalance poll request: with any tail it comes back as itself and the tail is left; cut anywhere it is Truncated |
| `RoundTrips.ReceivePollRebalanceReq` | proto/src/rebalance.rs:50-64 | Calling the decoder and then the encoder: bytes accepted as a rebalance poll request are the bytes written again, followed by the unread rest |
| `RoundTrips.SendIdReq` | proto/src/consumer.rs:400-412 | Calling the encoder and then the decoder on a commit or unsubscribe request: with any tail it comes back as itself and the tail is left; cut anywhere it is Truncated |
| `RoundTrips.ReceiveIdReq` | proto/src/consumer.rs:400-412 | Calling the decoder and then the encoder: bytes accepted as a commit or unsubscribe request are the bytes written again, followed by the unread rest |
| `RoundTrips.SendHello` | proto/src/payload.rs:72-82 | Calling the encoder and then the decoder on a greeting: with any tail it comes back as itself and the tail is left; cut anywhere it is Truncated |
| `RoundTrips.ReceiveHello` | proto/src/payload.rs:72-82 | Calling the decoder and then the encoder: bytes accepted as a greeting are the bytes written again, followed by the unread rest |
| `RoundTrips.SendStatus` | proto/src/consumer.rs:364-391 | Calling the encoder and then the decoder on a status reply: with any tail it comes back as itself and the tail is left; cut anywhere it is Truncated |
| `RoundTrips.ReceiveStatus` | proto/src/consumer.rs:364-391 | Calling the decoder and then the encoder: bytes accepted as a status reply are the bytes written again, followed by the unread rest |
| `RoundTrips.SendErrorResp` | proto/src/error.rs:130-153 | Calling the encoder and then the decoder on an error reply: with any tail it comes back as itself and the tail is left; cut anywhere it is Truncated |
| `RoundTrips.ReceiveErrorResp` | proto/src/error.rs:130-153 | Calling the decoder and then the encoder: accepted error bytes are written again as they were if and only if the kind code is known and the flag is 0 or 1 |
| `RoundTrips.SendProduceResp` | proto/src/payload.rs:222-275 | Calling the encoder and then the decoder on a produce reply: with any tail it comes back as itself and the tail is left; cut anywhere it is Truncated |
| `RoundTrips.ReceiveProduceResp` | proto/src/payload.rs:222-275 | Calling the decoder and then the encoder: accepted produce-reply bytes are written again as they were if and only if they acknowledge or the flag is 0 or 1 |
| `Frames.EncodeFrame` | proto/src/codec.rs:25-40 | A frame is written exactly if its payload is at most 16 MiB, and takes 13 bytes more |
| `Frames.FrameRoundTrip` | proto/src/codec.rs:25-60 | The header and payload of a frame are read back from the front of any stream it starts |
| `Frames.HeaderAcceptedIff` | proto/src/codec.rs:43-60 | Thirteen bytes are accepted as a header if and only if some frame has that header |
| `Frames.AcceptedSizes` | worker/src/server.rs:225-249 | The worker takes in a frame if and only if its payload is at most 4 MiB for produce frames, 8 MiB for poll replies and 64 KiB for every other type |
| `Frames.ReadFramesOfPrefix` | worker/src/server.rs:275-306 | However many bytes of a frame stream arrive, the frames a handler reads are a prefix of those written, and all of them if and only if all bytes arrive |
| `PollReply.ReplySize` | proto/src/consumer.rs:238-293 | A poll reply that encodes has exactly 5 bytes plus, per message, its buffered bytes, its topic length, 34 and 6 per header |
| `PollReply.ReplyFramedIff` | worker/src/server.rs:515-522 | The reply to a drained batch is framed if and only if that sum is at most 16 MiB |
| `DrainedReplies.SmallBatchFramed` | worker/src/server.rs:515-522 | A batch of messages within the bounds encodes and is framed if as many of the heaviest would be |
| `DrainedReplies.LargestBatch` | worker/src/consumer/real.rs:450-475 | Some run leaves a poll with as many of the heaviest messages as one poll can take, whatever the byte cap |
| `DrainedReplies.EveryReplyFramedIff` | worker/src/server.rs:515-522 | For messages of at most hi bytes, h headers and t topic bytes, every batch that a poll for max takes in any run is framed if and only if n = min(max, max(1, capacity)) is 0, or t fits its length prefix and 5 + n·(hi + t + 34 + 6h) is at most 16 MiB; a batch that is not framed is already out of the buffer |
| `ConsumerBuffer.PushAccounted` | worker/src/consumer/real.rs:1123-1157 | A push with its drop-oldest keeps the accounting |
| `ConsumerBuffer.DrainAccounted` | worker/src/consumer/real.rs:450-460 | A drain keeps the accounting and never subtracts more bytes than are counted |
| `ConsumerBuffer.AlwaysAccounted` | worker/src/consumer/real.rs:449-475 | In every interleaving of pushes, polls and delayed checks: the byte counter is the sum over the buffer, removed messages in order followed by the buffer are the received sequence, drops equal their counter, length is at most max(1, capacity), pauses equal resumes plus one if paused |
| `ConsumerBuffer.AccountedFromStart` | worker/src/consumer/real.rs:1123-1157 | The same from an empty subscription |
| `ConsumerBuffer.AlwaysByteBounded` | worker/src/consumer/real.rs:1123-1157 | If messages weigh between lo > 0 and hi and the byte cap B is positive, length is at most max(1, B/lo) and bytes at most max(1, B/lo)·hi, in every reachable state |
| `ConsumerBuffer.BytesAtMost` | worker/src/consumer/real.rs:1123-1157 | No run over messages between lo and hi bytes buffers more than N·hi bytes, where N = max(1, min(capacity, B/lo)) |
| `ConsumerBuffer.BytesAttained` | worker/src/consumer/real.rs:1123-1157 | For all caps and weights some run over such messages buffers exactly N·hi bytes |
| `ConsumerBuffer.ByteCapHoldsIff` | worker/src/consumer/real.rs:1123-1157 | Every run over such messages keeps the buffered bytes within the byte cap B if and only if N·hi is at most B |
| `ConsumerBuffer.ByteCapIsNotABound` | worker/src/consumer/real.rs:1126-1145 | A run in which three bytes are buffered under a cap of two, though no message weighs more than the cap |
| `Backpressure.WholeStepsAreRuns` | worker/src/consumer/real.rs:1153-1160 | A push with its check, or a drain with its check, is a run of the finer machine |
| `Backpressure.PausedHasWork` | worker/src/consumer/real.rs:863-920 | With whole steps, in every run a paused subscription has a message to poll |
| `Backpressure.PollDecides` | worker/src/consumer/real.rs:450-475 | A poll takes the oldest min(max, length) messages and resumes if and only if both low watermarks are reached |
| `Backpressure.PushDecides` | worker/src/consumer/real.rs:1123-1160 | A push drops the oldest message if and only if either cap is reached, and pauses if and only if either high watermark in force is |
| `Backpressure.NothingDroppedWithin` | worker/src/consumer/real.rs:1126-1145 | Without a byte cap, in every run nothing is dropped until more messages have come than the buffer holds |
| `Backpressure.HighWaterIsPaused` | worker/src/consumer/real.rs:863-920 | With whole steps and ordered watermarks, in every run the fetcher is paused whenever a high watermark, of messages or of bytes, is reached |
| `Backpressure.WatermarksOverlapIff` | worker/src/consumer/real.rs:863-916 | Some fill level both pauses and resumes if and only if a low watermark is not below its high watermark |
| `Backpressure.DefaultsOrderedIff` | worker/src/consumer/real.rs:166-198 | The derived defaults are ordered if and only if both capacities are at least 3; a byte capacity of 0, which turns the byte cap off, pauses on the first byte |
| `Backpressure.Hysteresis` | worker/src/consumer/real.rs:863-920 | With whole steps, after a pause with at least pause_at messages no run resumes before pause_at − resume_at messages were polled |
| `Backpressure.StuckExactlyByLatePause` | worker/src/consumer/real.rs:1153-1160 | A step leaves a subscription paused with an empty buffer and no check to clear it if and only if it is a pause check that trips after a poll emptied the buffer |
| `Backpressure.NeverStuckIff` | worker/src/consumer/real.rs:1153-1160 | Over every run a subscription never gets stuck if and only if no pause check comes that late |
| `Backpressure.StuckForever` | worker/src/consumer/real.rs:452-472 | Without a new message such a subscription stays stuck in every run |
| `Backpressure.StuckIsReachable` | worker/src/consumer/real.rs:1153-1160 | Such a run exists |
| `Backpressure.HysteresisNeedsWholeSteps` | worker/src/consumer/real.rs:904-917 | A run in which an old resume check undoes a pause though nothing was polled since |
| `Backpressure.ResumesEarlyIff` | worker/src/consumer/real.rs:452-472 | In the split code, above the low watermark a paused fetcher can be resumed before |buffer| − resume_at messages are polled if and only if an old check that will clear is outstanding |
| `Backpressure.HighWaterStepIff` | worker/src/consumer/real.rs:1153-1160 | A step of the split code leaves high water unpaused if and only if it is a resume check that clears on old readings while the buffer is at high water and no pause check is outstanding |
| `Backpressure.HighWaterHoldsIff` | worker/src/consumer/real.rs:1153-1160 | Over every run of the split code, high water is always paused or about to be if and only if no such step is taken |
| `StreamLoop.Subscription.PushLocked` | worker/src/consumer/real.rs:1123-1152 | The locked part of a push is the specified push, in place |
| `StreamLoop.Subscription.PollOnce` | worker/src/consumer/real.rs:450-475 | Returns the oldest messages up to the maximum and leaves the drained and resume-checked state; an empty buffer is left alone |
| `StreamLoop.Subscription.MaybePause` | worker/src/consumer/real.rs:863-884 | Flag and counter after a pause check |
| `StreamLoop.Subscription.MaybeResume` | worker/src/consumer/real.rs:904-920 | Flag and counter after a resume check |
| `StreamLoop.Subscription.Run` | worker/src/consumer/real.rs:1014-1163 | Over any stream results: why the loop stopped, its sleeps, whether it marked the subscription terminated, and the buffer it delivered, each as the lemmas below say from the results alone |
| `StreamLoop.BatchBytes` | worker/src/consumer/real.rs:456-456 | The loop sums message_bytes over a batch |
| `StreamLoop.LoopBehaviour` | worker/src/consumer/real.rs:1023-1087 | For every sequence of results the loop is running if and only if no prefix ended in a fatal error, stream end, owner drop or the 60th error in a row; after k errors the backoff is min(50·2^k, 5000) |
| `StreamLoop.EndsBy` | worker/src/consumer/real.rs:1041-1087 | By the first result that ends the loop: a stream end, a fatal error and the 60th error in a row stop it for that reason and mark the subscription terminated if it is still owned; a message for nobody stops it without a mark |
| `StreamLoop.TerminatedIff` | worker/src/consumer/real.rs:958-965 | The subscription is marked terminated if and only if the first stopping result is no message and finds it owned |
| `StreamLoop.DeliversEveryPush` | worker/src/consumer/real.rs:1123-1160 | While the loop runs, the buffer is what one whole push with its pause check for each owned message leaves |
| `StreamLoop.DeliversUpToTheStop` | worker/src/consumer/real.rs:1123-1160 | After it has stopped, what those before the stop leave |
| `StreamLoop.SleepBound` | worker/src/consumer/real.rs:1023-1087 | No error streak sleeps more than 266 350 ms, including the streak that ends the loop, for every sequence of results |
| `StreamLoop.SleepAttained` | worker/src/consumer/real.rs:1023-1087 | 59 errors in a row sleep exactly that long, and the 60th ends the loop without another sleep |
| `FlowControl.UserPauseKept` | worker/src/consumer/real.rs:758-799 | For every order of whole tasks and calls, the user's set is what the calls alone say, and all of it is paused at the fetcher |
| `FlowControl.WholeStepsArePlays` | worker/src/consumer/real.rs:758-799 | Each whole call or task is a run of the finer steps |
| `FlowControl.KeptWithoutOverlap` | worker/src/consumer/real.rs:758-954 | In every run of the finer steps in which no user pause overlaps an automatic resume or a user resume, what the user paused stays paused |
| `FlowControl.LostExactlyByStaleResume` | worker/src/consumer/real.rs:924-954 | With the calls split where the lock is released, a step loses a user's pause if and only if it applies a stale resume snapshot or records after one |
| `FlowControl.AlwaysKeptIff` | worker/src/consumer/real.rs:758-954 | Over every run of the finer steps, what the user paused stays paused throughout if and only if no such step is taken |
| `FlowControl.UserPauseCanBeLost` | worker/src/consumer/real.rs:924-954 | Such a run exists |
| `FlowControl.FlowState.FlowCall` | worker/src/consumer/real.rs:745-799 | A user's pause or resume in place: on success exactly the listed partitions, or the whole assignment if none is listed, are paused or resumed and recorded; if the assignment cannot be read or the fetcher call fails, it reports failure and nothing changes |
| `FlowControl.FlowState.Record` | worker/src/consumer/real.rs:787-798 | The loop adds to, or removes from, the user's set exactly the partitions of the call |
| `FlowControl.FlowState.ResumeTask` | worker/src/consumer/real.rs:924-954 | The automatic resume in place leaves out what the user paused; a failure changes nothing |
| `FlowControl.FlowState.NotUserPaused` | worker/src/consumer/real.rs:939-945 | The loop collects the assigned partitions that the user has not paused |
| `Fetcher.FetcherFollowsLastTask` | worker/src/consumer/real.rs:863-954 | In every run, whatever order tasks run in and whichever fail, the fetcher is paused exactly where the last task that succeeded and the user's calls say |
| `Fetcher.AgreesIff` | worker/src/consumer/real.rs:877-917 | The flag and the fetcher agree if and only if that task is of the kind the flag last spawned |
| `Fetcher.FlagAndFetcherAgree` | worker/src/consumer/real.rs:883-954 | In every run in which tasks run in spawn order and succeed, with no task pending the fetcher is paused exactly where the flag and the user's calls say |
| `Fetcher.SwappedTasksKillTheFetcher` | worker/src/consumer/real.rs:883-954 | A run in which a resume task overtakes the pause task before it: the fetcher stays paused with the flag clear |
| `Fetcher.FailedResumeKillsTheFetcher` | worker/src/consumer/real.rs:924-954 | A run in spawn order in which a failed resume does the same |
| `Fetcher.DeadForever` | worker/src/consumer/real.rs:904-920 | From there, in every run without a user resume, no message arrives and nothing resumes the fetcher |
| `ProducerCache.InvAlways` | worker/src/producer/real.rs:100-148 | What every step of every interleaving keeps about cells, entries and callers |
| `ProducerCache.CacheAgreesWithRegistry` | worker/src/producer/real.rs:117-148 | In every run a returned entry was built from exactly the config current at its version check, no cell is built twice, and a call loops at most 2 plus the overwrites made during it |
| `CacheCompletes.CheckDecides` | worker/src/producer/real.rs:128-147 | An entry that is current at its check is returned with the config the registry then has; any other is replaced |
| `CacheCompletes.FailsOnlyBy` | worker/src/producer/real.rs:117-126 | A call fails only by a build that fails or that finds no config registered |
| `CacheCompletes.FailsOnlyIn` | worker/src/producer/real.rs:117-126 | In every run in which a config is registered and no build of a call fails, the call does not fail |
| `CacheCompletes.ReturnedForGood` | worker/src/producer/real.rs:135-137 | What a call has returned no later step changes |
| `CacheCompletes.LoneCallReturns` | worker/src/producer/real.rs:117-148 | From every state in which a config is registered and nobody is building the current cell, a call left to itself returns an entry made from the registry's last config |
| `ProducerCache.OneVersionBuiltTwice` | worker/src/producer/real.rs:144-146 | A run from the empty cache in which a replacement discards a cell that already holds the registry's version, and that version is built a second time |
| `CacheReplacement.NoVersionBuiltTwice` | worker/src/producer/real.rs:117-148 | In every run in which each replacement throws away a spent cell (built for an older version than the registry's, or unbuilt with nobody left to build it from there), built versions strictly increase from cell to cell, so none is built twice |
| `CacheReplacement.RepeatAfter` | worker/src/producer/real.rs:138-147 | From a replacement of any other cell, held at the registry's version or still to be built, some run builds a version twice |
| `CacheReplacement.ReplaceSafeIff` | worker/src/producer/real.rs:138-147 | A replacement in a run so far is followed only by runs that never build a version twice, as long as they replace only spent cells, if and only if the cell it throws away is spent |
| `Registry.ClusterRegistry.Register` | worker/src/cluster.rs:72-97 | Overwrites the config, keeps the token, moves the version on; the history grows by the config |
| `Registry.ClusterRegistry.GetWithVersion` | worker/src/cluster.rs:109-115 | The last config registered and the number of registrations, modulo 2^64 |
| `Registry.ClusterRegistry.SetOAuthToken` | worker/src/cluster.rs:137-145 | Replaces the token of a registered cluster and refuses an unknown one |
| `Registry.ClusterRegistry.Handle` | worker/src/server.rs:815-828 | The request handlers accept and do exactly what the client's model of a worker says: a registration if and only if some pair has the key bootstrap.servers, and then every key has the value of its last pair |
| `Registry.Collect` | worker/src/server.rs:816-816 | A key is in the collected map if and only if some pair has it, and its value is that of the last such pair |
| `Registry.VersionNamesConfig` | worker/src/cluster.rs:74-86 | Equal versions mean equal configs unless 2^64 registrations lie between |
| `Resubscribe.ServedWithOwnParams` | ext/src/subscription.rs:148-227 | In every run in which no id is handed out while claimed for other parameters, every successful call was answered by a worker subscription created with that virtual id's own saved parameters |
| `ResubscribeHeals.SubscribedAgainIsServed` | ext/src/subscription.rs:185-226 | In every run in which the new subscription is spared, a call that subscribes again is answered by it, with its own parameters, however other calls run in between |
| `ResubscribeHeals.MovedIsServed` | ext/src/subscription.rs:168-182 | In every such run a call that finds its entry moved to a live id is answered by that one |
| `ResubscribeHeals.FirstAttempt` | ext/src/subscription.rs:160-162 | A first attempt is answered if and only if the id is live, and otherwise the call goes on to heal |
| `ResubscribeHeals.HealsAlone` | ext/src/subscription.rs:148-227 | Left to itself a call whose subscription is gone subscribes again, writes the new id to its entry, lets the lock go and is answered |
| `ResubscribeHeals.FollowsAlone` | ext/src/subscription.rs:168-182 | Where somebody else has subscribed again, it is answered by that subscription and makes none |
| `ResubscribeHeals.SurvivesCrash` | ext/src/subscription.rs:148-227 | From every state, after a crash of the worker the next call on a virtual id whose lock is free is answered with that id's own parameters |
| `Resubscribe.HandOutKeepsIff` | ext/src/subscription.rs:82-112 | Handing out an id keeps every binding of ids to parameters if and only if no entry, no running call and no subscriber about to enter it holds the id for other parameters |
| `Resubscribe.AlwaysBoundIff` | ext/src/subscription.rs:82-227 | In every run the bindings hold throughout if and only if no id is handed out while so claimed |
| `Resubscribe.FreshNeverClaimed` | worker/src/consumer.rs:29-33 | Ids that are not reused are never claimed when handed out |
| `Resubscribe.GuardedAlways` | ext/src/subscription.rs:163-227 | What every step keeps about locks, registry and resubscriptions, concurrent unsubscribes included |
| `Resubscribe.RepeatsOnlyVanished` | ext/src/subscription.rs:168-205 | In every run with fresh ids a stale id is subscribed again a second time only if its entry has vanished |
| `Resubscribe.ResubscribedAtMostOnce` | ext/src/subscription.rs:163-227 | Each virtual id and stale real id leads to at most one successful subscribe, for any number of callers and crashes, if no call subscribes again for a vanished entry |
| `Resubscribe.QuietNeverVanishes` | ext/src/subscription.rs:132-146 | That is so in every run in which no virtual id is unsubscribed while a call on it is running |
| `ResubscribeRaces.ReusedIdServesTheWrongSubscription` | worker/src/consumer.rs:29-33 | A run in which a restarted id counter gives a caller somebody else's subscription |
| `ResubscribeRaces.LateInsertServesTheWrongSubscription` | ext/src/subscription.rs:90-111 | A run in which the id of a subscriber who has not entered it yet is handed out again |
| `ResubscribeRaces.UnsubscribeRaceResubscribesTwice` | ext/src/subscription.rs:168-191 | A run in which an unsubscribe during two calls leads to two subscribes for nobody |
| `ResubscribeRaces.WithinBudget` | ext/src/subscription.rs:148-227 | In every run, once an entry is gone a stale id is subscribed again no more often than it already was plus the calls under way to |
| `ResubscribeRaces.SubscribedAgainIff` | ext/src/subscription.rs:148-227 | From any reachable state in which the entry is gone, some run subscribes a stale id again n times in all if and only if that often it already was or calls are under way to |
| `SelfHealing.RecordMirrorsHandle` | ext/src/cluster_replay.rs:44-58 | Recording a success and handling the request commute with what a worker must hold |
| `SelfHealing.LaterPairsWin` | worker/src/server.rs:816-816 | A key is in the map collected from pairs if and only if some pair has it, with the value of the last |
| `SelfHealing.InvalidatesIff` | ext/src/ipc.rs:145-163 | Exactly the pool error and the five broken-connection errors suggest a dead worker; a timeout does not |
| `SelfHealing.ReplayRebuildsTheWorker` | ext/src/cluster_replay.rs:44-66 | For every sequence of accepted requests, the record describes exactly what a worker that never crashed would hold |
| `SelfHealing.ReplayedOne` | ext/src/ipc.rs:122-137 | Replaying one entry is accepted and adds exactly that cluster, config and token |
| `SelfHealing.Client.Ensure` | ext/src/ipc.rs:101-107 | With the belief cached it does nothing; otherwise a worker it leaves running holds the record, and a worker that answered the probe is left as it was |
| `SelfHealing.Client.ReplayClusters` | ext/src/ipc.rs:111-139 | A worker that survives the replay holds the whole record, in whatever order it was sent, and only a crash makes it fail; no second replay starts inside it, so the recursion through ensure stops at one level |
| `SelfHealing.Client.Once` | ext/src/ipc.rs:500-520 | One attempt: served at what the worker held; a transport error if and only if the worker crashed during it or had died unnoticed; otherwise an error only for a failed spawn or a refusal |
| `SelfHealing.Client.Exchange` | ext/src/ipc.rs:508-519 | The part of an attempt that uses the socket: served exactly as the worker would handle it, or a transport error if and only if there is no worker or it crashes meanwhile, or a refusal |
| `SelfHealing.Client.WithRetry` | ext/src/ipc.rs:173-199 | Exactly one retry if the first attempt met a dead worker and none otherwise, counted as a success or a failure; a transport error needs two crashes, one of which may precede the call |
| `SelfHealing.Client.Call` | ext/src/ipc.rs:600-613 | A request that succeeds was served by a worker holding the last recorded config and token of every cluster recorded before; it fails only if a spawn fails, the worker refuses it, or two crashes get in its way, one of which may precede the call |
| `PooledRpc.BothEndsAgree` | worker/src/server.rs:402-463 | For every call the reply type the client waits for is the one the worker's handler writes, and Unsubscribe alone has none |
| `PooledRpc.RepliesAreOwn` | ext/src/ipc.rs:456-520 | In every run, failed socket options included, a reply or error that a caller gets was written for that caller's own request |
| `PooledRpc.ServeKeeps` | worker/src/server.rs:275-353 | A turn of the handler keeps a connection that owes nothing, one greeting or one reply in that condition |
| `PooledRpc.IdleOwesNothing` | ext/src/pool.rs:77-129 | In every run where the read timeout can be set, no pooled connection has a reply on it or coming, no connection has two users, and neither the correlation id nor the frame type check ever fails |
| `PooledRpc.OptionFailureHarmlessIff` | ext/src/ipc.rs:461-462 | Failing to set the read timeout keeps the pool sound if and only if the pool is full or the connection is dead |
| `PooledRpc.StaleReplyIsRefused` | ext/src/ipc.rs:476-482 | A run in which the pool hands out a connection with a reply to come, and the correlation id refuses it |
| `Pool.ConnectionPool.Acquire` | ext/src/pool.rs:77-120 | Returns the topmost live stream, discarding the dead ones above it and counting each, or dials; acquires are hits plus misses |
| `Pool.ConnectionPool.DropConn` | ext/src/pool.rs:214-223 | Put back unless poisoned or the stack is full |
| `Pool.UpToLive` | ext/src/pool.rs:81-100 | Finds the topmost live stream: it is alive and everything above it is dead |
| `Pool.AcquireIsPops` | ext/src/pool.rs:81-100 | What the acquire loop returns and leaves is what the protocol's pop steps lead to |
| `Pool.AcquiredIsUsable` | ext/src/pool.rs:77-100 | What an acquire hands out is open at the worker and has nothing to read, every connection above it was closed or had bytes waiting, and the caller dials only if all were |
| `RpcCompletes.FirstCallCompletes` | ext/src/ipc.rs:500-520 | From every state with a free caller and an empty pool, a call that the worker answers, with a reply or an error frame, ends with its own answer and leaves its connection in the pool |
| `RpcCompletes.NextCallCompletes` | ext/src/ipc.rs:500-520 | With a quiet connection on top of the pool the next call takes it, ends with its own answer and puts it back |
| `RpcCompletes.OneReplyOrClose` | worker/src/server.rs:275-353 | A turn of the handler takes one frame and writes at most one, which answers it; no greeting or a frame over its limit closes without a word; after that a request is answered exactly once or the connection is closed, and types without a reply get none |
| `RpcCompletes.ClosedIsSilent` | worker/src/server.rs:275-283 | Once the worker's end is closed nothing more is handled or written |
| `RpcCompletes.PutBackIff` | ext/src/pool.rs:214-223 | A connection goes back to the pool if and only if nothing was written, nothing is waited for, the answer was acceptable or the read timeout could not be set; every other end throws it away, and a refused answer is counted |
| `RpcCompletes.GreetedIff` | ext/src/pool.rs:142-179 | A dialled connection is handed out if and only if the greeting is a Hello of the same version |
| `RpcCompletes.ClearedDials` | ext/src/pool.rs:135-137 | After the pool is cleared an acquire is handed no connection made before; the caller dials a new one |
| `Lifetime.AlwaysConsistent` | worker/src/server.rs:94-188 | Clock facts every run keeps |
| `Lifetime.CheckIntervalClamped` | worker/src/server.rs:101-106 | The check interval is a quarter of the timeout within one and thirty seconds |
| `Lifetime.FirstFrameMustGreet` | worker/src/server.rs:306-315 | A connection whose first frame is not Hello is closed and nothing it asked for is done |
| `Lifetime.SelfExitJustified` | worker/src/server.rs:146-188 | In every run, when draining is signalled self-exit is enabled, no task remains, no subscription left was created or polled within the timeout, and a greeted client said Goodbye or the whole timeout saw no accept and no tick with a connection |
| `Lifetime.SelfExitInTime` | worker/src/server.rs:101-108 | If the last connection closed at t0 and no accept follows, draining is signalled by t0 + timeout + check interval + 1 ms, leaked subscriptions or not |
| `Lifetime.QuietBeforeIdleExit` | worker/src/server.rs:162-187 | An exit without a Goodbye comes at most one check interval before nobody was connected for the whole timeout |
| `Lifetime.IdleExitCanBeEarly` | worker/src/server.rs:162-187 | That bound is attained: for every timeout between four seconds and two minutes and every d up to one check interval, a run with ticks on time exits one interval less d early |
| `Lifetime.ShortCutTakenIff` | worker/src/server.rs:146-188 | After a Goodbye, with nobody connected or active and the last ended task uncollected, in every run without an accept and before the timeout draining is signalled if and only if the join branch comes before a tick |
| `Lifetime.CollectedStaysUntilTimeout` | worker/src/server.rs:146-188 | Once the last ended task is collected, without an accept no run signals before the timeout |
| `Lifetime.GoodbyeCanBeMissed` | worker/src/server.rs:146-188 | Both orders can follow a farewell: joined first it ends the worker, ticked first it does not |
| `Farewell.GoodbyeComesLast` | worker/src/server.rs:427-458 | However much of a farewell arrives, the worker has removed every drained id before this client raises expedited, has removed no other, and has it raised if and only if all arrives or somebody had raised it before |
| `Farewell.FarewellEndsTheWorker` | worker/src/server.rs:146-160 | The complete farewell of the last user makes the worker drain at its next join |
| `Farewell.DeliveredIsPrefix` | ext/src/lifecycle.rs:120-156 | The bytes written are a prefix of Hello, one Unsubscribe per drained id, Goodbye |
| `Farewell.DeliveredLength` | ext/src/lifecycle.rs:133-156 | They are as many as the link bears of nothing, of Hello or of the whole, as far as the handshake goes |
| `Farewell.Process.CleanupSocket` | ext/src/lifecycle.rs:120-156 | Leaves no registry or driver entry and no idle connection for its socket, touches no other, and writes all the link will bear of the farewell to exactly those ids |
| `Farewell.Process.SayFarewell` | ext/src/lifecycle.rs:133-185 | The writes, in order, stopped by the first that fails |
| `Farewell.Process.SendUnsubscribes` | ext/src/lifecycle.rs:140-149 | The loop writes one Unsubscribe for each id, or what the link bears of the farewell |
| `Farewell.Process.DrainRegistry` | ext/src/subscription.rs:249-263 | Removes exactly the entries of the socket and returns each one's real id once |
| `Farewell.Process.DrainDrivers` | ext/src/lifecycle.rs:70-77 | Removes the socket's key and returns each tracked id once |
| `Farewell.Process.Track` | ext/src/lifecycle.rs:49-56 | Adds the id under its socket |
| `Farewell.Process.Untrack` | ext/src/lifecycle.rs:59-67 | Removes the id, and the key with the last one; other sockets are unchanged |
| `Farewell.Process.CollectSockets` | ext/src/lifecycle.rs:99-117 | Every socket that has a pool, an entry, a driver subscription or was ever ensured |
| `Farewell.Process.OnModuleShutdown` | ext/src/lifecycle.rs:90-94 | Afterwards the process has no subscription and no idle connection on any socket |

## Left out

- Kafka itself: librdkafka's fetching, rebalancing, transactions and delivery. The fetcher's pause is a set of partitions, building a producer is a function of its config that may fail.
- What a commit makes durable: it commits librdkafka's stored position, which the modelled code does not decide.
- Lost-wakeup freedom of the long poll and of waiting for draining; the model takes what a loop does on its next iteration.
- Long-poll timing, the terminated error path of a poll and its removal of the dead subscription (another way for an id to be gone, which `Resubscribe` has as a step).
- fork, flock, signals and readiness waiting in the spawner; only whether a worker was found alive or was spawned.
- Transport failures other than a crash in `SelfHealing` (timeouts, refused handshakes of a live worker) and several client processes on one worker.
- Frames that arrive in part in `PooledRpc`: a short read or write is a failure there. `Frames` and `Farewell` model streams cut at any byte. A panic raised after a complete reply was written is not modelled.
- Aliasing of the token slot that running clients hold; the registry model keeps the token as a value.
- The resubscribe counters, metrics, logging, the HTTP endpoint and the text of error messages.
- Several workers in `Resubscribe`: one worker and one id counter stand for all sockets, although each worker counts for itself; with one model per socket nothing crosses between them.
- The PHP bindings, configuration from the environment, the dry-run producer and consumer, and the frame builders for coroutine drivers.
- Draining after a signal and the drain timeout; error kinds other than their codes.
