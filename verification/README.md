# Verification of the xDSL board daemon and the firmware container tool

This project models the logic of a daemon that drives an xDSL board over a raw Ethernet
protocol (EtherType 0x88B5), of the libraries under it, and of the tool that takes firmware
containers apart, and proves properties of that model. Code that works step by step is
modelled as classes and loops proved against specification functions; what the code is for is
then proved of those functions, over all inputs or over all runs.

The files follow the components:

* `Bytes`, `Options`: fixed-width integers, bits and options.
* `Crc`, `CrcDetect`, `CrcPeriod`, `Checksum`, `Frame`: CRC-16/ARC, what it detects and when it repeats, and the frame it protects.
* `Request`, `Board`, `BoardRuns`: the stop-and-wait request, as a search over receive outcomes and as the loop that performs it;
  the upload made of such requests, and a run of one that fails.
* `Firmware`, `Upload`, `Coverage`: the four stages of an upload as a state machine over the answers, what follows from the answers,
  and which chunks they make it ask for.
* `Protocol`, `ProtocolSafety`, `ProtocolLimits`, `ProtocolFlash`, `FlashRuns`: host, link and board together: exactly-once
  execution, exactly when it holds, the stored image, exactly when it is whole, and runs of both kinds.
* `Netlink`, `NetlinkMsg`: attribute trees, the message buffer, the iterator and the VLAN request.
* `Container`, `Pss`: chunk walk, split, CBC decryption in place; MGF1 and salt recovery.
* `Transport`: reassembling frames from a byte stream.
* `Text`, `Snapshot`: the status text and its parser.
* `Line`, `Config`: line parameters, their checks and payload, and the configuration resolver.
* `Unpack`, `Links`: the opcode-2 reply, and the data-plane link of opcodes 5 and 15.
* `SharedState`, `Worker`, `WorkerRuns`, `Daemon`, `DaemonSafety`: what the threads share, the board worker, its runs, and the
  daemon's interleaved threads.

`dafny verify dfyconfig.toml` verifies everything.

## What the proofs brought to light

* **Transmit buffer.** `board.rs:27-30` reserves 24 + 128 + 60 = 212 bytes, but the first chunk of every valid image needs
  24 + 3 + 1024 = 1051. The frame builder then panics, and release builds abort on panic. An upload can finish if and only if
  the buffer has 1051 bytes (`Upload.BufferSuffices`); so none is done with the buffers as they are (`BoardRuns.OwnBufferNeverDone`).
* **Exactly once.** A board that re-sends its cached reply when a sequence number repeats executes each request exactly once if
  and only if its initial number is none of those used in the run. That the initial number differs from the first one is not
  enough: the frames of earlier requests may be lost (`ProtocolLimits.NotFreshFails`). For a single run it is enough that
  the board has executed something before a frame with its initial number reaches it (`ProtocolSafety.ExactlyOnce`).
* **Pairs of flipped bits.** Two flipped bits of a frame go unnoticed exactly if they are a multiple of 32767 bits apart
  (`Checksum.PairRejected`), so never in a frame of less than 4 KB; with the parity result all errors of up to three bits
  that spare length and checksum are noticed there. Flips in the checksum field alone are always noticed
  (`Checksum.ChecksumFlipRejected`).
* **Chunk index.** `board.rs:319-327` takes the index after whatever chunk the board acknowledges, and in release builds the 32-bit
  addition wraps. So chunk indices increase exactly as long as no acknowledgement names 2^32 - 1 (`Upload.IndicesIncrease`);
  one that does makes the upload start again (`Upload.LargestAckRestarts`). Any other beyond its chunk, with chunks still to
  come, skips them: when chunk 0 is answered with an ACK of chunk 5, chunks 1 to 5 are not asked for unless the upload
  restarts (`Coverage.AheadAckSkips`), and four requests can make an upload that is done with chunk 0 alone stored
  (`FlashRuns.OneChunkStored`). Exactly: what is stored is the whole image if and only if each chunk skipped since the last
  restart had been asked for before it (`ProtocolFlash.UploadStoresImage`), without a restart if and only if no answer runs ahead
  (`ProtocolFlash.StoredIff`). An ACK beyond the last chunk skips nothing; it can only change the report of 100 percent
  (`Upload.FinishedReports`).
* **Settings.** The early exits at `board.rs:285`, `316`, `340` and `357` leave the stage's timeout and retries in force, as the
  contract of `Board.Board.FirmwareUpgrade` says. With a transmit buffer that holds the chunks, a receive error in the stream stage
  makes the next poll of a silent board send 21 frames instead of 4 (`BoardRuns.SilentPoll`).
* **Line mode inference.** `uci_cfg.rs:217` compares before trimming and `uci_cfg.rs:131` after, so `xfer_mode` set to `atm` with a
  blank behind it and no line mode gives VDSL with ATM and the daemon refuses to start (`Config.InferenceMissesBlanks`).
  `Config.StartsIff` says exactly when it starts.
* **Reload.** A reload that changes only bitswap or SRA never reaches the board (`WorkerRuns.ReloadReachesBoard`). Neither do the ATM
  parameters, the VLAN base or the data plane of another transfer mode: the worker makes no request about data-plane links
  (`Worker.OnlyLineRequests`), so the one told at the start stays the only one, and it is what the last usable store asks for
  exactly if all of these are still the same (`Daemon.LaunchAndRun`). A reload also skips the two checks at
  `daemon.rs:320-331`: the transfer mode in force fits exactly if it does in the last store that could be read and built
  (`WorkerRuns.TransferInForce`), and a store that stops the daemon at its start is taken over by a reload
  (`WorkerRuns.ReloadUnchecked`).
* **VLAN request.** `link.rs:91-101` ignores the results of the puts, so without room the request is sent incomplete;
  `NetlinkMsg.VlanComplete` says exactly when it is complete.
* **Unit tests.** The unit tests at `board.rs:485-486` expect code 5 to mean up; `unpack.rs:24-32` says 1. The one at
  `uci_cfg.rs:341` expects two profiles from `av`, while `uci_cfg.rs:99-109` gives all nine. The model follows the code.

## Reading the model

Bytes are integers below 256 and the CRC register is 16 booleans, least significant first. `usize` is unbounded; 8-, 16- and 32-bit
arithmetic that could wrap is written out. Bits are numbered in the order in which the reflected CRC takes them, least
significant first within each byte, and bursts are windows in that order.

Foreign code appears as a parameter or a short contract: sockets and the kernel are scripts of outcomes (`Starved` and
`SendPending` mean that the script ended first), RSA, the hash and the block cipher are arbitrary functions, the bus codec is any
prefix code, and the buffer cap of the bus transport is a parameter. `nla_put` appends at the aligned tail or fails for want of
room, and the bounds check of the attribute walk is the usual one; numbers in attributes are little-endian. Time is whatever the
clock readings in a run say.

The board of the protocol model follows `docs/server.md:49-53`. It takes the chunk index as big-endian, as `board.rs:313` writes it;
`docs/commands/firmware.md:127` calls the field little-endian, and the stored-image results assume that the code is right. The link
is first in, first out, may lose and repeat any frame and may echo what the host sends. Frames are cut to the receive buffer. The
stored-image results concern frames that fit the transmit buffer, as the protocol model has no such limit.

## Model

| member | source | states |
|---|---|---|
| Crc.CrcSplit | rbctl-feed/rbctl-dsl/crates/rbctl_proto/src/checksum.rs:47-56 | feeding a string in pieces gives the CRC of the whole |
| Crc.Crc16Arc | examples/checksum.py:71-78 | the bit-by-bit loop computes CRC-16/ARC from any seed, and its value is that of the shift-and-xor on numbers with 0xA001 |
| Crc.EightSteps | examples/checksum.py:76-77 | the inner loop is eight shifts of the register |
| Crc.CrcValue | examples/checksum.py:71-78 | the register of bits and the CRC on numbers have the same value after any data |
| Crc.ProtoComputeChecksum | examples/checksum.py:54-65 | the nibble-table loop equals the bit-by-bit CRC for every seed and byte string, as registers and as numbers |
| Crc.TableByte | examples/checksum.py:58-64 | two table steps on a byte are eight shifts |
| Crc.TableWord | examples/checksum.py:41-48 | each table word is the register after four shifts of its index |
| CrcDetect.CrcIsFeedBits | rbctl-feed/rbctl-dsl/crates/rbctl_proto/src/checksum.rs:22-26 | the byte-wise CRC is the bit-wise one over the bits of the data |
| CrcDetect.FeedLinear | examples/checksum.py:41-42 | the CRC is linear over GF(2) in register and data together |
| CrcDetect.BurstDetected | rbctl-feed/rbctl-dsl/crates/rbctl_proto/src/checksum.rs:3-8 | a nonzero difference within 16 consecutive bits never leaves the register zero |
| CrcDetect.BurstChangesCrc | rbctl-feed/rbctl-dsl/crates/rbctl_proto/src/checksum.rs:22-26 | data differing within 16 consecutive bits have different CRCs |
| CrcDetect.OddFeed | rbctl-feed/rbctl-dsl/crates/rbctl_proto/src/checksum.rs:3-8 | the register's parity after the data is the sum of the parities |
| CrcPeriod.ReturnsIff | rbctl-feed/rbctl-dsl/crates/rbctl_proto/src/checksum.rs:3-8 | the register that stands for x + 1 comes back exactly after the multiples of 32767 zero bits |
| CrcPeriod.PairDetected | rbctl-feed/rbctl-dsl/crates/rbctl_proto/src/checksum.rs:3-8 | a difference of two bits leaves the register zero exactly if their distance is a multiple of 32767 |
| CrcPeriod.PairChangesCrc | rbctl-feed/rbctl-dsl/crates/rbctl_proto/src/checksum.rs:22-26 | data differing in two bits have equal CRCs exactly then |
| Checksum.Digest.Update | rbctl-feed/rbctl-dsl/crates/rbctl_proto/src/checksum.rs:23-25 | an update continues the CRC from the current register |
| Checksum.CrcCoveredRegion | rbctl-feed/rbctl-dsl/crates/rbctl_proto/src/checksum.rs:38-57 | the three updates give the CRC of the covered region with the checksum field zero, from register zero, as a number too |
| Checksum.SetChecksum | rbctl-feed/rbctl-dsl/crates/rbctl_proto/src/checksum.rs:63-66 | only the two checksum bytes are written; high byte first, they are the CRC from zero of the region |
| Checksum.SetThenVerify | rbctl-feed/rbctl-dsl/crates/rbctl_proto/src/checksum.rs:63-82 | what was just set is accepted, and the region is unchanged |
| Checksum.VerifiedIs | rbctl-feed/rbctl-dsl/crates/rbctl_proto/src/checksum.rs:71-82 | a frame is accepted exactly if the number at 22 is the CRC from zero of bytes 14 to 21, two zeros, and from 24 on as many bytes as the number at 20 says, and all of them are there |
| Checksum.ChecksumsXor | rbctl-feed/rbctl-dsl/crates/rbctl_proto/src/checksum.rs:38-66 | the checksums of two frames of the same length differ by the checksum of the difference of their regions |
| Checksum.UncoveredIgnored | rbctl-feed/rbctl-dsl/crates/rbctl_proto/src/checksum.rs:71-82 | the verdict does not depend on the Ethernet header or on bytes behind the covered region |
| Checksum.BurstRejected | rbctl-feed/rbctl-dsl/crates/rbctl_proto/src/checksum.rs:71-82 | in every accepted frame, any nonempty set of flips within 16 bits of magic, subtype, sequence number or payload is rejected |
| Checksum.PairRejected | rbctl-feed/rbctl-dsl/crates/rbctl_proto/src/checksum.rs:71-82 | in every accepted frame, two flips in magic, subtype, sequence number or payload are rejected unless their distance is a multiple of 32767, and accepted if it is |
| Checksum.VerifiedIsEven | rbctl-feed/rbctl-dsl/crates/rbctl_proto/src/checksum.rs:71-82 | every accepted frame has an even number of bits set from magic to payload end |
| Checksum.OddFlipsRejected | rbctl-feed/rbctl-dsl/crates/rbctl_proto/src/checksum.rs:71-82 | an odd number of flips that spares the length field is rejected, wherever they are |
| Checksum.ChecksumFlipRejected | rbctl-feed/rbctl-dsl/crates/rbctl_proto/src/checksum.rs:71-82 | in every accepted frame, any nonempty set of flips in the two checksum bytes is rejected |
| Frame.BuildCommandFrame | rbctl-feed/rbctl-dsl/crates/rbctl_proto/src/frame.rs:52-81 | the buffer starts with the complete frame of the fields and is unchanged behind it |
| Frame.WireFields | rbctl-feed/rbctl-dsl/crates/rbctl_proto/src/frame.rs:97-126 | a built frame, padded or not, parses, verifies and gives its fields back, both addresses and the EtherType included, the payload up to its length modulo 65536 |
| Frame.RoundTrip | rbctl-feed/rbctl-dsl/crates/rbctl_proto/src/frame.rs:52-126 | the payload comes back if and only if it has fewer than 65536 bytes |
| Frame.ParsedIsCovered | rbctl-feed/rbctl-dsl/crates/rbctl_proto/src/checksum.rs:38-82 | the parser and the receive check accept the same lengths, so the assertion on the covered region never fires |
| Request.SearchDecides | rbctl-feed/rbctl-dsl/crates/rbctl_dsl/src/board.rs:116-151 | the first decisive frame before timeout number retries + 1, or that timeout, alone decides the request, after one frame per timeout and one more |
| Request.SearchStarves | rbctl-feed/rbctl-dsl/crates/rbctl_dsl/src/board.rs:116-151 | with no such outcome the request is still waiting |
| Request.ReactIsRequest | rbctl-feed/rbctl-dsl/crates/rbctl_dsl/src/board.rs:130-148 | handling outcomes one at a time gives the same answer as the whole request |
| Request.AnswerHeard | rbctl-feed/rbctl-dsl/crates/rbctl_dsl/src/board.rs:130-148 | whatever is sent and received, the first outcome consumed that parses as a response with opcode and number of the request is the last one consumed; the answer is its payload exactly if its checksum is right, and a bad frame exactly if it is wrong |
| Request.FirstReplyDecides | rbctl-feed/rbctl-dsl/crates/rbctl_dsl/src/board.rs:116-151 | the first such frame before the timeouts run out decides the request |
| Request.DamagedReply | rbctl-feed/rbctl-dsl/crates/rbctl_dsl/src/board.rs:138-145 | a reply whose payload is hit by a burst of at most 16 bits or in an odd number of bits makes the request a bad frame |
| Board.Board.Request | rbctl-feed/rbctl-dsl/crates/rbctl_dsl/src/board.rs:116-151 | the counter is stepped once; answer, unread outcomes and frames sent are those of the search, all frames byte-identical and zero-padded to 60; Ok comes only with the payload of a matching frame whose checksum is right, a bad frame only from a matching one whose checksum is wrong; it panics exactly if the frame does not fit |
| Board.Board.Build | rbctl-feed/rbctl-dsl/crates/rbctl_dsl/src/board.rs:118-120 | the buffer cut to at least 60 bytes is the frame followed by zeros |
| Board.Board.DrainQueue | rbctl-feed/rbctl-dsl/crates/rbctl_dsl/src/board.rs:130-148 | the receive loop consumes up to the first decisive outcome or timeout; it accepts a matching frame exactly if its checksum is right |
| Board.Board.Exchange | rbctl-feed/rbctl-dsl/crates/rbctl_dsl/src/board.rs:124-150 | the attempt loop refines the search and leaves the rest of the script unread |
| Board.RequestOnWire | rbctl-feed/rbctl-dsl/crates/rbctl_dsl/src/board.rs:117-128 | what is sent has at least 60 bytes, goes to everyone from the host with EtherType 0x88B5 and magic 0x11, and carries opcode, number, length and payload at their offsets with a right checksum |
| Board.Board.FirmwareUpgrade | rbctl-feed/rbctl-dsl/crates/rbctl_dsl/src/board.rs:268-376 | requests, reports and result are those of the state machine fed with the answers, each report sent and marked when the answer calling for it has come and before the next request; the frames sent and the outcomes consumed are those of these requests one after the other, each with its own number and its stage's retries; settings are restored except when a request fails; with a buffer under 1051 bytes an image of a valid size is never done |
| Board.Board.Stream | rbctl-feed/rbctl-dsl/crates/rbctl_dsl/src/board.rs:301-333 | the chunk loop makes the requests of the streaming phase, with the traffic they add up to, and gives each report as it falls due |
| Board.Board.Conclude | rbctl-feed/rbctl-dsl/crates/rbctl_dsl/src/board.rs:335-375 | the last two stages, their traffic and their reports, with the settings put back unless a request fails |
| Board.DueReports | rbctl-feed/rbctl-dsl/crates/rbctl_dsl/src/board.rs:298-370 | the reports due, time stamps aside, are those of the state machine |
| Board.RecordedSize | rbctl-feed/rbctl-dsl/crates/rbctl_dsl/src/board.rs:280-285 | the first request of every upload is a zero byte and the image's size, high byte first |
| BoardRuns.BreaksInStream | rbctl-feed/rbctl-dsl/crates/rbctl_dsl/src/board.rs:301-316 | with buffers of 2000 bytes, an accepted announcement and then a receive error: every upload makes two requests and breaks off at chunk 0, whatever comes later unread |
| BoardRuns.SilentPoll | rbctl-feed/rbctl-dsl/crates/rbctl_dsl/src/board.rs:268-316 | after that, with buffers of 2000 bytes, 20 retries and 300 ms are in force, and a poll that nothing answers sends 21 frames before it times out |
| BoardRuns.FreshPoll | rbctl-feed/rbctl-dsl/crates/rbctl_dsl/src/board.rs:93-128 | with the settings at start such a poll sends 4 frames |
| BoardRuns.SilentFromHere | rbctl-feed/rbctl-dsl/crates/rbctl_dsl/src/board.rs:281-357 | a board that falls silent is sent the request at hand 6 times in the announcement stage and 21 times in any other, and the upload breaks off with a timeout |
| BoardRuns.OwnBufferNeverDone | rbctl-feed/rbctl-dsl/crates/rbctl_dsl/src/board.rs:27-30 | the buffers have 212 bytes and hold exactly the requests with up to 188; no upload of an image of an acceptable size is done with them |
| Firmware.StagesInOrder | rbctl-feed/rbctl-dsl/crates/rbctl_dsl/src/board.rs:268-376 | whatever the answers, the stages sent are a beginning of 0, 1 repeated, 2, 3 |
| Upload.ValidImageIs | rbctl-feed/rbctl-dsl/crates/rbctl_proto/src/firmware.rs:96-143 | an image is accepted exactly if its size is 2 to 8 MB and its first twelve bytes are the magic, 256 and that size |
| Upload.ImageFaults | rbctl-feed/rbctl-dsl/crates/rbctl_proto/src/firmware.rs:96-143 | why an image is refused, the first reason in the order of the checks |
| Upload.ValidSize | rbctl-feed/rbctl-dsl/crates/rbctl_proto/src/firmware.rs:129-143 | accepted images have 2 to 8 MB |
| Upload.ChunkCount | rbctl-feed/rbctl-dsl/crates/rbctl_dsl/src/board.rs:277-279 | images of such a size are cut into 2048 to 8192 chunks, the number the 32-bit arithmetic gives without loss |
| Upload.IndicesIncrease | rbctl-feed/rbctl-dsl/crates/rbctl_dsl/src/board.rs:319-327 | chunk indices strictly increase if and only if no acknowledgement names 2^32 - 1 |
| Upload.LargestAckRestarts | rbctl-feed/rbctl-dsl/crates/rbctl_dsl/src/board.rs:319-326 | such an acknowledgement of the first chunk puts the upload back to its beginning |
| Upload.ReportDue | rbctl-feed/rbctl-dsl/crates/rbctl_dsl/src/board.rs:328-332 | no percentage wraps, and a report is due exactly on reaching the next ten percent |
| Upload.SizeAnnounced | rbctl-feed/rbctl-dsl/crates/rbctl_proto/src/firmware.rs:51-59 | the size the board is told is the image's |
| Upload.StatusDecides | rbctl-feed/rbctl-dsl/crates/rbctl_dsl/src/board.rs:286-296 | a reply with a status, the opcode echoed or not, is a refusal exactly if the status is not zero |
| Upload.AckDecides | rbctl-feed/rbctl-dsl/crates/rbctl_dsl/src/board.rs:319-327 | below 2^32 - 1, the next chunk is the one behind the larger of chunk sent and chunk acknowledged |
| Upload.GoesWell | rbctl-feed/rbctl-dsl/crates/rbctl_dsl/src/board.rs:268-376 | when no answer runs ahead before the last chunk and none wraps, phase and reports after k answers are those planned |
| Upload.ChunksInOrder | rbctl-feed/rbctl-dsl/crates/rbctl_dsl/src/board.rs:303-327 | request i carries exactly chunk i - 1, one request each, no index cut to 16 bits, if and only if no answer runs ahead before the last chunk and none wraps |
| Upload.FinishedReports | rbctl-feed/rbctl-dsl/crates/rbctl_dsl/src/board.rs:328-375 | a finished upload in step made ceil((len - 256) / 1024) + 3 requests; it reported stage 0, then 10, 20, ... 100 percent, then stages 2 and 3, exactly if the answer to the last chunk comes to 100 percent, as it does unless it acknowledges beyond that chunk |
| Coverage.PassCovers | rbctl-feed/rbctl-dsl/crates/rbctl_dsl/src/board.rs:301-333 | whatever the answers, each chunk behind the upload was either asked for or skipped since the last restart, never both, and no later one was |
| Coverage.EveryChunkAsked | rbctl-feed/rbctl-dsl/crates/rbctl_dsl/src/board.rs:301-333 | for every sequence of answers, all chunks behind the upload have been asked for if and only if each one skipped since the last restart had been asked for before it |
| Coverage.SkipsIff | rbctl-feed/rbctl-dsl/crates/rbctl_dsl/src/board.rs:319-327 | an answer that does not wrap skips a chunk if and only if it acknowledges beyond its own with chunks still to come |
| Coverage.EveryChunkIff | rbctl-feed/rbctl-dsl/crates/rbctl_dsl/src/board.rs:301-333 | without a restart all chunks behind the upload have been asked for if and only if no answer runs ahead |
| Coverage.AheadAckSkips | rbctl-feed/rbctl-dsl/crates/rbctl_dsl/src/board.rs:319-327 | an ACK of chunk 5 in answer to chunk 0 makes chunk 6 the next request, and whatever follows, chunks 1 to 5 are not asked for without a restart |
| Coverage.DoneWithOneChunk | rbctl-feed/rbctl-dsl/crates/rbctl_dsl/src/board.rs:301-375 | four answers with which an upload is done and has asked for chunk 0 alone |
| Coverage.RestartMends | rbctl-feed/rbctl-dsl/crates/rbctl_dsl/src/board.rs:319-327 | answers that skip chunks, restart and then keep in step: every chunk is asked for all the same |
| Upload.ResultDecoded | rbctl-feed/rbctl-dsl/crates/rbctl_dsl/src/board.rs:355-375 | version and status of the board's last reply, with or without the echoed opcode, are the ones returned |
| Upload.PayloadFits | rbctl-feed/rbctl-dsl/crates/rbctl_dsl/src/board.rs:27-30 | 1051 bytes hold every frame of an upload |
| Upload.FirstChunkIsLargest | rbctl-feed/rbctl-dsl/crates/rbctl_dsl/src/board.rs:303-313 | the first chunk of an image of a valid size needs all of them |
| Upload.SmallBufferNeverDone | rbctl-feed/rbctl-dsl/crates/rbctl_dsl/src/board.rs:27-30 | with a smaller buffer no upload of an image of a valid size gets past its first chunk |
| Upload.BufferSuffices | rbctl-feed/rbctl-dsl/crates/rbctl_dsl/src/board.rs:27-30 | some upload of the image is done if and only if the buffer has 1051 bytes |
| Protocol.LookAtWire | rbctl-feed/rbctl-dsl/crates/rbctl_dsl/src/board.rs:132-145 | a well-formed frame, cut or not, is skipped or gives its own payload, and its own payload exactly when it matches and is not cut |
| ProtocolSafety.NextKeeps | docs/server.md:49-53 | every step of host, board and link, failed sends and receives included, keeps the invariant unless the board takes a first frame for a repeat |
| ProtocolSafety.RunKeeps | rbctl-feed/rbctl-dsl/crates/rbctl_dsl/src/board.rs:116-151 | so does every run of fewer than 2^32 requests in which it never does |
| ProtocolSafety.ExactlyOnce | rbctl-feed/rbctl-dsl/crates/rbctl_dsl/src/board.rs:116-151 | in such runs, under any loss, repetition, echo and socket error, no request but opcode 8 runs twice, and every Ok answer is the reply of a run of that very request |
| ProtocolSafety.FreshIsUnmistaken | docs/server.md:49-53 | no first frame is taken for a repeat if the board's initial number is not used |
| ProtocolSafety.FreshExactlyOnce | rbctl-feed/rbctl-dsl/crates/rbctl_dsl/src/board.rs:116-151 | so then the promise holds |
| ProtocolSafety.BreakKeeps | rbctl-feed/rbctl-dsl/crates/rbctl_dsl/src/board.rs:140-148 | a receive error that ends a request while its frames still travel keeps the invariant |
| ProtocolLimits.NotFreshFails | rbctl-feed/rbctl-dsl/crates/rbctl_proto/src/frame.rs:133-139 | a run in which a request is answered Ok and never executed, whenever a number in use is the board's initial one |
| ProtocolLimits.ExactlyOnceIff | docs/server.md:49-53 | the promise holds over all runs of n requests if and only if the board's initial number is not among the n used |
| ProtocolFlash.FlashHolds | rbctl-feed/rbctl-dsl/crates/rbctl_dsl/src/board.rs:301-333 | when announcement and chunk requests, in whatever order and number, are answered Ok, the board has stored exactly the chunks requested, each at its index, and was told the image's size |
| ProtocolFlash.UploadStoresImage | rbctl-feed/rbctl-dsl/crates/rbctl_dsl/src/board.rs:268-376 | an upload run over the lossy link, once its stream is over, has stored exactly the chunks it asked for; they are the image without its header if and only if each chunk skipped since the last restart had been asked for before it, and if and only if header and bytes stored add up to the size announced |
| ProtocolFlash.SizeTells | docs/commands/firmware.md:80-98 | whatever chunks of an image are stored, their bytes and the header come to its size exactly if they are all |
| ProtocolFlash.StoredIff | rbctl-feed/rbctl-dsl/crates/rbctl_dsl/src/board.rs:301-333 | without a restart they are that if and only if no answer runs ahead |
| FlashRuns.AnyUpload | rbctl-feed/rbctl-dsl/crates/rbctl_dsl/src/board.rs:116-151 | whatever replies a board could give, some run of host, link and board is the upload with exactly these answers |
| FlashRuns.WholeStored | rbctl-feed/rbctl-dsl/crates/rbctl_dsl/src/board.rs:268-376 | for every image of a valid size there is a run that is done and has stored it whole |
| FlashRuns.OneChunkStored | rbctl-feed/rbctl-dsl/crates/rbctl_dsl/src/board.rs:319-327 | and one, by a single far ACK, that is done with chunk 0 alone stored |
| Netlink.AlignIs | rbctl-feed/rbctl-dsl/crates/tinyln_rs/src/lib.rs:43-51 | alignment rounds up to the next multiple of four |
| Netlink.AttributeBytes | rbctl-feed/rbctl-dsl/crates/tinyln_rs/src/attr.rs:17-30 | an attribute that fits is its length with the header, its type, both low byte first, and its data; a nest has the top bit of its type set |
| Netlink.DecodeIsWalk | rbctl-feed/rbctl-dsl/crates/tinyln_rs/src/attr.rs:188-204 | the tree read is the walk with every nested payload read in turn |
| Netlink.DecodedSize | rbctl-feed/rbctl-dsl/crates/tinyln_rs/src/attr.rs:188-204 | re-encoding what was read needs no more room than the aligned buffer |
| Netlink.FittingRoundTrip | rbctl-feed/rbctl-dsl/crates/tinyln_rs/src/attr.rs:77-101 | a forest whose attributes all fit their headers is read back in the same order |
| Netlink.RoundTrip | rbctl-feed/rbctl-dsl/crates/tinyln_rs/src/attr.rs:77-204 | a forest is read back if and only if every attribute's type leaves the nesting flag free and its length fits 16 bits |
| NetlinkMsg.NlMsg.Put | rbctl-feed/rbctl-dsl/crates/tinyln_rs/src/attr.rs:17-30 | an attribute is appended at the aligned tail, or nothing changes |
| NetlinkMsg.NlMsg.PutString | rbctl-feed/rbctl-dsl/crates/tinyln_rs/src/attr.rs:48-56 | the string with its terminator is appended; a NUL inside fails without effect |
| NetlinkMsg.NlMsg.NestStart | rbctl-feed/rbctl-dsl/crates/tinyln_rs/src/attr.rs:77-86 | an empty nest header is appended and its offset returned |
| NetlinkMsg.NlMsg.NestEnd | rbctl-feed/rbctl-dsl/crates/tinyln_rs/src/attr.rs:92-101 | only the length field at the offset changes, to the low 16 bits of the distance to the tail |
| NetlinkMsg.NlMsg.WriteTree | rbctl-feed/rbctl-dsl/crates/tinyln_rs/src/attr.rs:77-101 | puts and offset-based nests leave exactly the encoded tree behind the aligned message, and succeed whenever it fits |
| NetlinkMsg.NlaIter.Next | rbctl-feed/rbctl-dsl/crates/tinyln_rs/src/attr.rs:191-203 | each step yields the first attribute of what is left and stops at the first malformed one |
| NetlinkMsg.Collect | rbctl-feed/rbctl-dsl/crates/tinyln_rs/src/attr.rs:188-204 | running the iterator to its end gives the walk |
| NetlinkMsg.ReadForest | rbctl-feed/rbctl-dsl/crates/tinyln_rs/src/attr.rs:171-204 | iterating recursively over nested payloads gives the decoded forest |
| NetlinkMsg.AddVlanAttributes | rbctl-feed/rbctl-dsl/crates/tinyln_rs/src/rtnl/link.rs:91-101 | the message gets exactly the attributes of the VLAN tree for which there is room, the name only without a NUL; it fails exactly if a nest cannot be opened |
| NetlinkMsg.DecimalReads | rbctl-feed/rbctl-dsl/crates/tinyln_rs/src/rtnl/link.rs:84 | the decimal text in the interface name is read, first digit first and without leading zeros, as the VLAN id |
| NetlinkMsg.VlanComplete | rbctl-feed/rbctl-dsl/crates/tinyln_rs/src/rtnl/link.rs:91-101 | these are the whole tree if and only if all of it has room and the name holds no NUL |
| NetlinkMsg.VlanRoundTrip | rbctl-feed/rbctl-dsl/crates/tinyln_rs/src/rtnl/link.rs:83-105 | a reader of the complete request finds the parent before the last dot of the name and the VLAN id in decimal behind it, the parent's index, the kind `vlan` and the VLAN id, each under its attribute number |
| Container.ParseChunks | fwextract/src/main.rs:127-152 | the loop measures the chunks and takes the first nonempty signature, and the metadata lies within the file |
| Container.ScanWritten | fwextract/src/main.rs:127-152 | any chunks with nonzero types, ended by a type-0 chunk and followed by anything, are measured exactly; the signature is the first 256 bytes of the first nonempty type-1 body |
| Container.SplitContainer | fwextract/src/main.rs:483-564 | behind the size guard, metadata, host image and remote image joined are the file |
| Container.WrittenFits | fwextract/src/main.rs:470-492 | a file put together from a header with the host image's length at 0x70, chunks, terminator and images has its metadata measured up to the images, and passes the size guard exactly if they are at least that long, a remote image or not |
| Container.AesCbcDecrypt | fwextract/src/main.rs:289-302 | the in-place loop decrypts its range and leaves the bytes around it |
| Container.CbcRoundTrip | fwextract/src/main.rs:289-302 | for any cipher pair, decryption undoes CBC encryption on every length |
| Container.DecryptContainer | fwextract/src/main.rs:530-540 | everything behind the metadata is decrypted up to the last whole block; metadata and tail are unchanged |
| Pss.Mgf1 | fwextract/src/main.rs:208-220 | the loop computes MGF1 of RFC 8017, section B.2.1, for any hash |
| Pss.MaskBlock | fwextract/src/main.rs:208-220 | block k is the digest of the seed and of the four bytes whose big-endian value is k |
| Pss.PaddingRestores | fwextract/src/main.rs:244-247 | left padding restores any leading zero bytes the integer dropped |
| Pss.CountZeros | fwextract/src/main.rs:269-272 | the scan stops at the first nonzero byte |
| Pss.ExtractAesKey | fwextract/src/main.rs:227-286 | the result is that of the extraction function, errors and their order included; what that gives is `Pss.SaltRecovered` and `Pss.OnlyEncodings` |
| Pss.SaltRecovered | fwextract/src/main.rs:227-286 | for every signature whose little-endian value RSA takes to an encoding of RFC 8017, section 9.1.1, with a salt of 32 to 222 bytes, key and vector are the salt's first and next 16 bytes |
| Pss.ReversedValue | fwextract/src/main.rs:237-238 | the reversed bytes, high byte first, have the little-endian value |
| Pss.ExtractIs | fwextract/src/main.rs:237-247 | what RSA makes of the signature's little-endian value, read as 256 bytes, decides the result |
| Pss.KeyOfIs | fwextract/src/main.rs:249-286 | the result by trailer, place and value of the first nonzero byte of the data block, and what is left for the salt, in this order |
| Pss.OnlyEncodings | fwextract/src/main.rs:249-286 | a key comes only from such an encoding, its unused top bit aside |
| Transport.UnixUbusTransport.FillRx | rbctl-feed/rbctl-dsl/crates/rbctl_dsl/src/transport.rs:41-59 | all bytes up to the event that ends reading are appended in order; the buffer never exceeds the cap; beyond it everything buffered is dropped |
| Transport.UnixUbusTransport.Receive | rbctl-feed/rbctl-dsl/crates/rbctl_dsl/src/transport.rs:84-104 | without a loss, frames returned and buffer together are the bytes read; no frame and closed are reported only when no whole frame is buffered, and closed only at the end of the stream |
| Transport.UnixUbusTransport.Send | rbctl-feed/rbctl-dsl/crates/rbctl_dsl/src/transport.rs:63-82 | success means every byte was written once, in order; failure, a proper beginning; the error is that of the last write |
| Transport.InOrderAndComplete | rbctl-feed/rbctl-dsl/crates/rbctl_dsl/src/transport.rs:84-104 | however a stream of frames is cut, what is returned is a beginning of it, the codec never refuses it, and every frame read whole has been returned before no frame or closed is |
| Text.TrimTrims | rbctl-feed/rbctl-dsl/crates/rbctl_dsl/src/uci_cfg.rs:77 | trimming leaves exactly the texts that start and end visibly unchanged |
| Text.TrimCuts | rbctl-feed/rbctl-dsl/crates/rbctl_dsl/src/uci_cfg.rs:77 | trimming cuts white space off both ends and nothing else |
| Text.WordsOfJoin | rbctl-feed/rbctl-dsl/crates/rbctl_dsl/src/uci_cfg.rs:111 | words joined by blanks come back as they were |
| Text.WordsSplit | rbctl-feed/rbctl-dsl/crates/rbctl_dsl/src/uci_cfg.rs:111 | a word alone is one word, and any white-space character separates the words before it from those behind it |
| Text.ParseShow | rbctl-feed/rbctl-dsl/crates/rbctl_dsl/src/ipc.rs:103-112 | every value of a machine integer is read back from its own text |
| Text.NumberAccepted | rbctl-feed/rbctl-dsl/crates/rbctl_dsl/src/ipc.rs:103-112 | a text is read as a machine integer only if it is digits after at most one sign, `-` for signed types only, and exactly if the value is in range |
| Snapshot.FromLines | rbctl-feed/rbctl-dsl/crates/rbctl_dsl/src/ipc.rs:97-119 | the loop gives the snapshot with the lines applied in order |
| Snapshot.LinesOfUnlines | rbctl-feed/rbctl-dsl/crates/rbctl_dsl/src/ipc.rs:85-99 | splitting into lines undoes joining them |
| Snapshot.RoundTrip | rbctl-feed/rbctl-dsl/crates/rbctl_dsl/src/ipc.rs:85-119 | a snapshot comes back from its text if and only if its text fields are unchanged by trimming and have no line feed |
| Snapshot.ValuesRead | rbctl-feed/rbctl-dsl/crates/rbctl_dsl/src/ipc.rs:103-112 | a number that cannot be read or does not fit counts as zero, and only `true` is on |
| Snapshot.OtherLines | rbctl-feed/rbctl-dsl/crates/rbctl_dsl/src/ipc.rs:97-119 | a line without a colon and a blank, or with an unknown name, changes nothing |
| Snapshot.ReturnDropped | rbctl-feed/rbctl-dsl/crates/rbctl_dsl/src/ipc.rs:99 | a carriage return before the line feed does not belong to the line |
| Line.MaskBit | rbctl-feed/rbctl-dsl/crates/rbctl_proto/src/pack.rs:52-70 | a profile is chosen exactly if its bit is set in the mask |
| Line.MaskTells | rbctl-feed/rbctl-dsl/crates/rbctl_proto/src/pack.rs:63-70 | different choices of profiles have different masks; zero is the empty choice |
| Line.LineConfigFine | rbctl-feed/rbctl-dsl/crates/rbctl_proto/src/validate.rs:103-139 | exactly the triples pass whose profiles are sent and whose annex letters the standard knows |
| Line.LineConfigTable | rbctl-feed/rbctl-dsl/crates/rbctl_proto/src/validate.rs:56-91 | annex by annex, the standards it passes with |
| Line.LineConfigFault | rbctl-feed/rbctl-dsl/crates/rbctl_proto/src/validate.rs:103-139 | the reason given for what does not pass, with the first letter that is not known |
| Line.XferModeTable | rbctl-feed/rbctl-dsl/crates/rbctl_proto/src/validate.rs:145-165 | VDSL2 passes with PTM only, the ADSL standards with ATM only, multimode with both |
| Line.PackReads | rbctl-feed/rbctl-dsl/crates/rbctl_proto/src/pack.rs:92-119 | a reader of the documented byte layout (`docs/xdsl/payloads.md:76-83`) gets back modulation, annex, both switches and the profiles where they are sent |
| Line.PackTells | rbctl-feed/rbctl-dsl/crates/rbctl_proto/src/pack.rs:100-119 | two opcode-1 payloads are equal exactly if all parameters are, profiles where they are sent |
| Line.PackInjective | rbctl-feed/rbctl-dsl/crates/rbctl_proto/src/pack.rs:100-119 | on configurations that pass the check the payload determines all parameters |
| Config.ParseTone | rbctl-feed/rbctl-dsl/crates/rbctl_dsl/src/uci_cfg.rs:94-127 | the loop gives the profiles named, or the first word that names none |
| Config.AnnexTexts | rbctl-feed/rbctl-dsl/crates/rbctl_dsl/src/uci_cfg.rs:76-85 | which texts name which annex, and the error of all others |
| Config.OtherTexts | rbctl-feed/rbctl-dsl/crates/rbctl_dsl/src/uci_cfg.rs:67-160 | so for line mode, transfer mode, encapsulation and payload |
| Config.ToneOfNames | rbctl-feed/rbctl-dsl/crates/rbctl_dsl/src/uci_cfg.rs:94-127 | profile names joined by blanks, in any order and number, choose exactly those profiles |
| Config.BuildRoundTrip | rbctl-feed/rbctl-dsl/crates/rbctl_dsl/src/uci_cfg.rs:192-305 | every expressible configuration comes back from its own description, on the command line over any store or in the store |
| Config.BuiltIsExpressible | rbctl-feed/rbctl-dsl/crates/rbctl_dsl/src/uci_cfg.rs:202-305 | nothing else can be built |
| Config.BuiltIsConsistent | rbctl-feed/rbctl-dsl/crates/rbctl_dsl/src/uci_cfg.rs:202-305 | whatever store and overrides, a built configuration passes the line check, has a VLAN in 2000..2007, and ATM parameters exactly for ATM |
| Config.TransferCheck | rbctl-feed/rbctl-dsl/crates/rbctl_dsl/src/uci_cfg.rs:210-237 | a built configuration passes the transfer check if and only if the chosen texts agree, as a condition on the inputs |
| Config.StartsIff | rbctl-feed/rbctl-dsl/crates/rbctl_dsl/src/daemon.rs:303-331 | the daemon refuses to start exactly if a configuration is built whose transfer mode does not fit |
| Config.InferenceMissesBlanks | rbctl-feed/rbctl-dsl/crates/rbctl_dsl/src/uci_cfg.rs:213-222 | a store with the single option xfer_mode, a blank behind atm, is refused; without the blank it is accepted |
| Config.OverridesWin | rbctl-feed/rbctl-dsl/crates/rbctl_dsl/src/uci_cfg.rs:192-305 | the store counts only where the command line is silent |
| Config.NothingChosen | rbctl-feed/rbctl-dsl/crates/rbctl_dsl/src/uci_cfg.rs:202-305 | with nothing chosen the configuration built is the one the daemon falls back to: VDSL2, annex B, all profiles, PTM, both switches on, VLAN 2000 |
| Config.OnlyAdsl | rbctl-feed/rbctl-dsl/crates/rbctl_dsl/src/uci_cfg.rs:202-305 | with ADSL alone chosen: annex B, no profiles, ATM on 8/35 with LLC, bridged |
| Config.SwitchNumbers | rbctl-feed/rbctl-dsl/crates/rbctl_dsl/src/uci_cfg.rs:270-300 | a switch of the store is off for zero and on for every other number |
| Config.NumbersFallBack | rbctl-feed/rbctl-dsl/crates/rbctl_dsl/src/uci_cfg.rs:239-300 | numbers that cannot be read count as 8, 35 and 0, and a VLAN base above 7 as 7 |
| Unpack.LineObjReads | rbctl-feed/rbctl-dsl/crates/rbctl_proto/src/unpack.rs:116-151 | from a reply laid out as `docs/xdsl/responses.md:50-72` says, every field comes back as the board wrote it |
| Unpack.CodesRead | rbctl-feed/rbctl-dsl/crates/rbctl_proto/src/unpack.rs:20-60 | which codes mean which status and data path; every other is kept as it is |
| Links.AtmReads | rbctl-feed/rbctl-dsl/crates/rbctl_proto/src/pack.rs:156-173 | a reader of the documented layout (`docs/xdsl/payloads.md:107-120`) gets back every parameter of the ATM link, SCR and MBS for the two VBR categories only |
| Links.AtmRoundTrip | rbctl-feed/rbctl-dsl/crates/rbctl_proto/src/pack.rs:84-173 | a reader with the documented codes gets the whole link back |
| Links.PtmReads | rbctl-feed/rbctl-dsl/crates/rbctl_proto/src/pack.rs:178-186 | so it is for the PTM link (`docs/xdsl/payloads.md:133-139`) |
| Links.PayloadReads | rbctl-feed/rbctl-dsl/crates/rbctl_dsl/src/daemon.rs:370-392 | a reader of the data-plane request gets the configured link: opcode 5, UBR, VPI and VCI 8/35, LLC and bridged unless configured, or opcode 15; no tag; VLAN 2000 and the base |
| Links.PayloadTells | rbctl-feed/rbctl-dsl/crates/rbctl_proto/src/pack.rs:156-186 | two configurations give the same data-plane request if and only if transfer mode, VLAN base and, for ATM, all parameters are the same |
| Links.AtmGrants | rbctl-feed/rbctl-dsl/crates/rbctl_dsl/src/board.rs:205-215 | a reply with an ATM descriptor, opcode echoed or not, decides the VLAN |
| Links.PtmGrants | rbctl-feed/rbctl-dsl/crates/rbctl_dsl/src/board.rs:230-242 | so does one with a PTM descriptor |
| SharedState.Requester.Hear | rbctl-feed/rbctl-dsl/crates/rbctl_dsl/src/board_worker.rs:162-170 | a report is sent to the requester and marked in the shared state; all given so far have been |
| Worker.BoardWorker.HandleReload | rbctl-feed/rbctl-dsl/crates/rbctl_dsl/src/board_worker.rs:119-136 | a changed configuration is taken over, sent after the line was taken down, and published; otherwise nothing happens |
| Worker.LineUpReads | rbctl-feed/rbctl-dsl/crates/rbctl_dsl/src/board_worker.rs:119-147 | a reader of the opcode-1 request gets the configuration's line parameters, profiles where they are sent |
| Worker.BoardWorker.HandleRestart | rbctl-feed/rbctl-dsl/crates/rbctl_dsl/src/board_worker.rs:138-147 | the line is taken down and up with the worker's configuration |
| Worker.BoardWorker.HandleFirmwareUpgrade | rbctl-feed/rbctl-dsl/crates/rbctl_dsl/src/board_worker.rs:149-186 | the requester gets the upload's reports as they come and then its result, and the shared status follows; a panic ends the process |
| Worker.BoardWorker.MaybePoll | rbctl-feed/rbctl-dsl/crates/rbctl_dsl/src/board_worker.rs:188-232 | one opcode-2 request if a second has passed; the line data of the answer are published, and a new status is announced |
| Worker.BoardWorker.OneTurn | rbctl-feed/rbctl-dsl/crates/rbctl_dsl/src/board_worker.rs:89-103 | a command and then a poll: requests, results and the steps taken are those that the board's answers give |
| Worker.BoardWorker.Run | rbctl-feed/rbctl-dsl/crates/rbctl_dsl/src/board_worker.rs:84-108 | the loop is the run of its turns, each with the requests its command and poll make and with what the answers to them give; it adds no request about data-plane links and ends with a line-down request without retries |
| Worker.OnlyLineRequests | rbctl-feed/rbctl-dsl/crates/rbctl_dsl/src/board_worker.rs:112-232 | whatever is asked of the worker and whatever the board answers, its requests have opcodes 1, 2, 3 and 8 only, so none of 5, 6, 15 or 16 |
| WorkerRuns.StatusEventsFollow | rbctl-feed/rbctl-dsl/crates/rbctl_dsl/src/board_worker.rs:188-244 | over every run the status events are those of the statuses seen, consecutive repeats left out |
| WorkerRuns.ReplyPolled | rbctl-feed/rbctl-dsl/crates/rbctl_dsl/src/board_worker.rs:188-244 | a documented reply, opcode echoed or not, is read as the board meant it, and the script is told up for code 1, training for 3, handshake for 4, down for all others |
| WorkerRuns.PollsApart | rbctl-feed/rbctl-dsl/crates/rbctl_dsl/src/board_worker.rs:188-192 | a poll is due at least a second after the last was noted |
| WorkerRuns.DuePollMade | rbctl-feed/rbctl-dsl/crates/rbctl_dsl/src/board_worker.rs:188-192 | and none that is due is left out |
| WorkerRuns.SilentWithoutScript | rbctl-feed/rbctl-dsl/crates/rbctl_dsl/src/board_worker.rs:217-223 | without a script nothing is announced |
| WorkerRuns.ModesSeparated | rbctl-feed/rbctl-dsl/crates/rbctl_dsl/src/board_worker.rs:119-147 | between two transfer-mode events there is a restart or a changed reload |
| WorkerRuns.ModeAnnounced | rbctl-feed/rbctl-dsl/crates/rbctl_dsl/src/board_worker.rs:214-227 | such an event names the configured mode and directly follows the event that the line is up |
| WorkerRuns.UpSinceFollows | rbctl-feed/rbctl-dsl/crates/rbctl_dsl/src/board_worker.rs:199-203 | the date kept is that of the first sighting of the current unbroken run of ups; failed polls do not break it |
| WorkerRuns.UptimePublished | rbctl-feed/rbctl-dsl/crates/rbctl_dsl/src/board_worker.rs:199-212 | the published uptime is the age of that run in whole seconds, zero if the line is not up |
| WorkerRuns.LineShown | rbctl-feed/rbctl-dsl/crates/rbctl_dsl/src/board_worker.rs:205-208 | the line data published are those of the last poll that brought any |
| WorkerRuns.RunInSync | rbctl-feed/rbctl-dsl/crates/rbctl_dsl/src/board_worker.rs:112-147 | published modulation, annex and transfer mode and the last opcode-1 request always are those of the worker's configuration |
| WorkerRuns.ReloadReachesBoard | rbctl-feed/rbctl-dsl/crates/rbctl_dsl/src/board_worker.rs:246-251 | after a reload the board was last told what the store asks for, exactly unless only bitswap or SRA changed |
| WorkerRuns.ConfigFollows | rbctl-feed/rbctl-dsl/crates/rbctl_dsl/src/board_worker.rs:119-136 | after every run the configuration is that of the last store that could be read and built, bitswap, SRA and the data plane aside |
| WorkerRuns.TransferInForce | rbctl-feed/rbctl-dsl/crates/rbctl_dsl/src/daemon.rs:320-331 | from a checked start, the line check holds after every run, and the transfer check exactly if the last store that could be read and built passes it |
| WorkerRuns.ReloadUnchecked | rbctl-feed/rbctl-dsl/crates/rbctl_dsl/src/board_worker.rs:119-136 | a store with which the daemon does not start is taken over by a reload |
| Daemon.Launch | rbctl-feed/rbctl-dsl/crates/rbctl_dsl/src/daemon.rs:303-449 | the daemon stops exactly by the condition on the inputs; otherwise line and data plane are sent, the VLAN is the one the board grants, the transfer mode is announced, and the worker starts with the configuration sent and published |
| Daemon.LaunchAndRun | rbctl-feed/rbctl-dsl/crates/rbctl_dsl/src/daemon.rs:303-449 | over the start and every run of the worker, exactly one data-plane request is made, that of the start; it is the one of the last usable store if and only if both ask for the same link |
| Daemon.StepInOrder | rbctl-feed/rbctl-dsl/crates/rbctl_dsl/src/daemon.rs:459-498 | every step keeps: commands executed, followed by the queue, are the commands sent, and upgrades are settled in the order taken |
| Daemon.StepCarriesOut | rbctl-feed/rbctl-dsl/crates/rbctl_dsl/src/board_worker.rs:88-99 | every step keeps: each command taken is carried out as what it is, once and in order |
| Daemon.CommandsFirst | rbctl-feed/rbctl-dsl/crates/rbctl_dsl/src/board_worker.rs:86-103 | between two rounds a waiting command goes before a poll |
| Daemon.StepStatus | rbctl-feed/rbctl-dsl/crates/rbctl_dsl/src/board_worker.rs:149-186 | every step keeps: the status shows an upgrade exactly from its mark to its settling, else the last result |
| Daemon.StepLinked | rbctl-feed/rbctl-dsl/crates/rbctl_dsl/src/board_worker.rs:84-232 | every step keeps: all that the worker keeps, publishes and sends is that of its own run and of the first half of a step under way |
| Daemon.MidwayCompletes | rbctl-feed/rbctl-dsl/crates/rbctl_dsl/src/board_worker.rs:112-232 | the second half of a reload, poll, report or result makes it the whole step |
| DaemonSafety.StepOwn | rbctl-feed/rbctl-dsl/crates/rbctl_dsl/src/daemon.rs:250-261 | every step keeps: requesters of the upgrades sent are distinct, and are the clients that got that far |
| DaemonSafety.StepEventsOk | rbctl-feed/rbctl-dsl/crates/rbctl_dsl/src/board_worker.rs:161-185 | every step keeps: a requester is sent progress, and at most one result, last |
| DaemonSafety.StepClientOk | rbctl-feed/rbctl-dsl/crates/rbctl_dsl/src/daemon.rs:265-289 | every step keeps: a client has received a beginning of that and ends with the result unless it left or was never served |
| DaemonSafety.StepImages | rbctl-feed/rbctl-dsl/crates/rbctl_dsl/src/daemon.rs:226-250 | every step keeps: only images that pass the check reach the worker |
| DaemonSafety.ClosedUnserved | rbctl-feed/rbctl-dsl/crates/rbctl_dsl/src/daemon.rs:265 | a channel closes without a result only after the worker has gone, for a command it never took |
| DaemonSafety.RunSafe | rbctl-feed/rbctl-dsl/crates/rbctl_dsl/src/daemon.rs:209-290 | all of these hold in every state reached under every interleaving |
| DaemonSafety.SignalsKept | rbctl-feed/rbctl-dsl/crates/rbctl_dsl/src/daemon.rs:459-498 | over every run a signal is pending exactly from its handler to the control loop's next look, the worker goes only after the exit flag, and no more reloads and restarts are sent than were asked for |
| DaemonSafety.RefusedOnlyDuring | rbctl-feed/rbctl-dsl/crates/rbctl_dsl/src/daemon.rs:217-224 | a client is refused exactly if the worker is between the mark and the settling of an upgrade |
| DaemonSafety.GatesInOrder | rbctl-feed/rbctl-dsl/crates/rbctl_dsl/src/daemon.rs:209-262 | over every run a client is checked first, loads its image then, and only then sends its command, each once |
| DaemonSafety.PublishedIsRun | rbctl-feed/rbctl-dsl/crates/rbctl_dsl/src/board_worker.rs:84-232 | in every reached state what is published is the worker's run, with the first half of a step under way; published and kept configuration agree, and the board was last told it, or the one about to be published |
| DaemonSafety.ServedInOrder | rbctl-feed/rbctl-dsl/crates/rbctl_dsl/src/daemon.rs:459-498 | results come in the order in which the upgrades were sent, one each |

## Left out

- System calls, packet filter, interface setup, log output, command-line parsing, the script processes themselves, shell files and packaging.
- `SeqCounter` is the field `seqNumber` of `Board.Board`, stepped by `Frame.NextNumber`; the Python script's `set_checksum` and `verify_checksum` repeat the Rust ones.
- Real time: timeouts are outcomes the environment chooses, and the shutdown deadline is not modelled; the timeouts set during an upload never reach the socket in the source either.
- The wrappers of opcodes 4, 6, 7 and 16 and the opcode-4 reply: fixed-offset reads and writes.
- The rest of the daemon's start and end: looking up and bringing up interfaces (beyond the VLAN message), the two sockets, and the removal of the link.
- The bus object and its metrics reply, and the reply lines streamed to firmware clients: text built from the values that are modelled.
- The protobuf protocol and windowed streaming described in the plans: not implemented in the source.
- The bus codec, the hash, RSA and the AES block function: parameters of the theorems about them. `MAX_MSG_LEN` is not part of this model.
- The generic tree writer and reader in `NetlinkMsg` stand for the uses callers make of the attribute functions; the source has no such function itself.
- In `Daemon` the reports and results of uploads and the line data of polls are arbitrary; `Worker.BoardWorker.Run` ties them to the board's answers.
- DaemonSafety.RunSafe: two clients may both pass admission before the worker marks the first upgrade, as in the source; the second then waits its turn.
- NetlinkMsg.VlanRoundTrip: the name must leave its attribute under 65536 bytes; the kernel's own limit is far below.
- ProtocolSafety.ExactlyOnce: runs have fewer than 2^32 requests, because after that the numbers come round and nothing tells a new request from a repeat.
- Protocol runs have no limit on the transmit buffer, and requests have payloads under 65536 bytes, because longer ones cannot be framed.
