# A verified model of the Zaurus DTM synchronization library

The library talks to a Sharp Zaurus over TCP: it frames messages on a byte stream, exchanges them
with a request/message/acknowledge discipline, opens a session by a fixed sequence of exchanges,
and decodes the item format and the items it is sent. This project models those layers in Dafny and
proves what each promises the one above it. `dafny verify dfyconfig.toml` checks everything.

| layer | files |
|---|---|
| bytes, counted runs, the C heap with a malloc oracle | `Wire.dfy`, `Codecs.dfy`, `Memory.dfy` |
| reply bodies: wire layout, and the parsers that allocate | `Replies.dfy`, `ReplyParsers.dfy` |
| request bodies: announced lengths, and the writers | `Requests.dfy`, `TodoRecords.dfy`, `Writers.dfy` |
| frames, the message structure, sockets; the protocol byte by byte | `Frames.dfy`, `Messages.dfy`, `Net.dfy`, `Layouts.dfy` |
| exchanges, their transcript and what it says about the bytes; two endpoints in lockstep | `Transcripts.dfy`, `Links.dfy`, `Records.dfy`, `Lockstep.dfy` |
| the opening handshake; item decoding; the calls of the library, and any sequence of them | `Session.dfy`, `ItemFields.dfy`, `Items.dfy`, `Library.dfy`, `Histories.dfy` |

How it fits together:

* A socket is the bytes the peer will still deliver and the bytes sent so far. `recv` takes any
  non-empty part, `send` accepts any non-empty part, and either may fail. All results hold for
  every way the bytes are cut.
* A heap is the set of live blocks, the set of freed ones and an oracle saying which calls to
  malloc fail. `free` requires a live block, so a verified method frees nothing twice, and results
  about failures hold for every oracle.
* `Links.Link` holds the two connections, which every `zdtm_initiate_sync` replaces, and keeps a
  transcript of the frames taken and sent, the content of the requests and the bodies of the
  replies. `Link.Synced()` says that these records are exactly what happened to the two byte streams
  of the connection since they were begun (`Links.Played`). A new connection begins them at its
  first byte; every exchange gives `Synced()` back on success, so a result about the transcript of a
  successful run is a result about the bytes on the connection.
* A run of `zdtm_initiate_sync` is compared with one word of events. On success the transcript is
  the whole word; a failing run is a prefix of it and at most one unexpected frame
  (`Transcripts.StraysFrom`). The peer is whatever byte stream it likes to be, as long as the bodies
  in it are as long as their structure and fit the buffers they are copied to (`Links.StreamOk`).
* `Links.Link.Smooth` says that from here on no allocation and no `recv` or `send` fails and that the
  device sends frames of given types next. Every exchange promises to succeed then, and so does
  `zdtm_initiate_sync` under `Session.Env.Promising`, for any device that sends the frames of the
  handshake its own replies call for (`Session.Env.FramesExpected`).
* Codes, letters, offsets and keys are written out in the contracts that tell them (`Layouts`,
  `ItemFields`, and the bytes of the signals), so that these can be compared with the source one by one.
* `Histories.Drive` is a client that makes any finite sequence of calls, trying again after refusals
  and failures as often as it likes.

What the proofs found out about the code as written:

* After a partial `send` both send loops offer the frame from its start again. A frame survives
  exactly if it repeats its own beginning at every later offset, a signal exactly if one `send`
  takes all seven bytes, and a request never if the first of several took no more than its header.
* The todo writer stores a 4 where the category length belongs and four bytes of description and of
  notes. It advances by the announced length exactly when description and notes together have eight
  bytes; the conditions under which the record reads back are given exactly.
* An RDW request of an unknown variation is sent although `RET_UNK_VAR` is documented for it: its
  length -12 wraps to a content of 65524 bytes, of which seven are written.
* An RMS log larger than its field makes the writer return NULL, which is not looked at: the
  message goes out with content nobody wrote.
* The test for an all-zero last-sync time compares addresses with 0 and never holds, so results 1
  of `_zdtm_obtain_last_time_synced` and -11 of `zdtm_initiate_sync` are unreachable.
* The switch of `_zdtm_reset_sync_state` compares wire values with 0 and 1 and falls through: a
  todo session sets the address-book flag and not its own.
* An item value of length zero has a block that `_zdtm_free_params` passes over, and the three
  arrays of a parsed ASY reply and the model string of an AIG reply are never released; a text stored twice in an item, and a passcode
  set twice, lose the first block.
* Only the length of the passcode modulo 256 is announced and sent.
* `zdtm_terminate_sync` takes a reply of any type as the answer to RQT.
* The received checksum is stored and never compared.

## Model

| member | source | states |
|---|---|---|
| Replies.DecodeEncodeAsy | src/zdtm_asy_msg.c:41-128 | an ASY body laid out from three id lists of any lengths decodes to them, leaving exactly what follows |
| Replies.EncodeDecodeAsy | src/zdtm_asy_msg.c:41-128 | whatever decodes as ASY is the layout of its result: no two bodies mean the same lists |
| Replies.GetColumnsAfterPut | src/zdtm_adi_msg.c:67-92 | abbreviations, type ids and descriptions laid out column by column come back as the rows they were taken from |
| Replies.PutColumnsAfterGet | src/zdtm_adi_msg.c:67-92 | the converse: three columns that can be read are the columns of the rows read |
| Replies.DecodeEncodeAdi | src/zdtm_adi_msg.c:40-98 | ADI round trip for every number of rows and every description length, with nothing of what follows consumed |
| Replies.EncodeDecodeAdi | src/zdtm_adi_msg.c:40-98 | ADI decoding is exact: the body is the layout of the rows it gives |
| Replies.DecodeEncodeAdr | src/zdtm_adr_msg.c:26-69 | ADR round trip for every number and length of values |
| Replies.EncodeDecodeAdr | src/zdtm_adr_msg.c:26-69 | ADR decoding is exact |
| Replies.DecodeEncodeAig | src/zdtm_aig_msg.c:39-66 | model string, language and authentication state come back from an AIG body |
| Replies.EncodeDecodeAig | src/zdtm_aig_msg.c:39-66 | AIG decoding is exact |
| Codecs.GetManyAfterPut | src/zdtm_adr_msg.c:46-66 | a counted run of any element layout that is invertible reads back, for every count |
| Codecs.PutAfterGetMany | src/zdtm_adr_msg.c:46-66 | and every run that can be read is the layout of its elements |
| ReplyParsers.ReadIdList | src/zdtm_asy_msg.c:44-68 | one id list: read as the layout says, cursor behind it, array in one new block, or nothing allocated |
| ReplyParsers.ParseRawAsy | src/zdtm_asy_msg.c:41-128 | the result code is decided by which of the three mallocs fails first; on failure the live blocks are those at entry; on success three new blocks hold what the wire layout says and the cursor has advanced by exactly its size |
| ReplyParsers.FillDescs | src/zdtm_adi_msg.c:76-92 | the third column: rows filled in order until the first malloc that fails, one new block each |
| ReplyParsers.ParseRawAdi | src/zdtm_adi_msg.c:40-98 | -1 and -2 exactly on a failing malloc for the array or a description, with everything rolled back; otherwise the rows, each with its recorded length right, in new and distinct blocks |
| ReplyParsers.FillValues | src/zdtm_adr_msg.c:46-66 | the values filled in order until the first malloc that fails, one new block each |
| ReplyParsers.ParseRawAdr | src/zdtm_adr_msg.c:26-69 | as for ADI: exact failure codes, complete rollback at every failure point, the values of the wire layout |
| ReplyParsers.ParseRawAig | src/zdtm_aig_msg.c:39-66 | device information as laid out, the model string in one new block |
| Memory.Heap.FreeEach | src/zdtm_adi_msg.c:82-90 | a rollback loop releases exactly the blocks claimed since a point, each once |
| Requests.WriterMeetsLength | src/zdtm_msgs.c:105-243 | for every request type, the bytes its writer stores are as many as its length function announces, exactly when an oversized RMS log, an unknown RDW variation, an RDW item that cannot be written, and todo texts not of eight bytes together are ruled out |
| TodoRecords.RecordHasLength | src/zdtm_common.c:96-105 | the length function measures the record of length-prefixed parts, for all lengths |
| TodoRecords.RecordReadsBack | src/zdtm_common.c:111-193 | that record reads back to every part, whatever follows it |
| TodoRecords.WrittenLength | src/zdtm_common.c:111-193 | as written, bytes advanced equal the announced length if and only if description_len + notes_len = 8 |
| TodoRecords.WrittenIsRecord | src/zdtm_common.c:111-193 | the bytes stored are the intended record if and only if the category has four bytes and description and notes have four each, or eight and none with length fields in the right places of the text |
| TodoRecords.ReadBackExactly | src/zdtm_common.c:111-193 | under exactly the same condition what was stored reads back to the item with nothing left over |
| Writers.TodoWrite | src/zdtm_common.c:111-193 | stores through the advancing position stay inside the block, touch nothing before it, and leave those bytes |
| Writers.RrlWrite | src/zdtm_rrl_msg.c:31-36 | length byte and that many password bytes |
| Writers.RgeWrite | src/zdtm_rge_msg.c:30-38 | 16-bit length and that many path bytes |
| Writers.RmsWrite | src/zdtm_rms_msg.c:31-54 | a log of at most 38 bytes, zero-padded to 38; a larger one makes the writer give up |
| Writers.VariationWrite | src/zdtm_rdw_msg.c:86-186 | the fields of each RDW variation behind the fixed ones |
| Writers.RdwWrite | src/zdtm_rdw_msg.c:86-204 | the whole RDW body, and NULL exactly for variations 1 and 3 with an item that is no todo |
| Writers.TwoWrite | src/zdtm_rmg_msg.c:31-35 | two single bytes in order, as RMG, RDI, RSY and the front of RDS are written |
| Writers.ThreeWrite | src/zdtm_rss_msg.c:31-36 | three single bytes in order |
| Writers.IdWrite | src/zdtm_rdr_msg.c:45-64 | sync type at offset 0, 16-bit number at 1 and 32-bit sync id at 3, as RDR, RDD and the front of RDW are written |
| Writers.WriteRequest | src/zdtm_msgs.c:175-237 | whatever the type, the stored bytes stand at the front of the block and no store leaves it |
| Frames.FrameReadsBack | src/zdtm_net.c:246-442 | a signal or a well-formed general frame at the front of any stream is received as itself, and the rest is left |
| Frames.ReceivedLayout | src/zdtm_net.c:246-442 | whatever is received was laid out on the wire in exactly that way |
| Frames.StreamReadsBack | src/zdtm_net.c:246-442 | frames laid end to end come back as the same list and nothing is left over |
| Frames.UniqueDecoding | src/zdtm_net.c:246-442 | no byte stream is two different lists of frames |
| Frames.SeventhByteDecides | src/zdtm_msgs.c:32-69 | behind the six bytes every fixed header starts with, the seventh alone tells which signal it is, if any |
| Frames.SignalsSpelled | src/zdtm_msgs.c:32-69 | 00 00 00 00 00 96 and 06, 05 or 18 in front of anything are an acknowledgement, a request and an abort, and what follows is left |
| Frames.FixedHeadersAreGeneral | src/zdtm_types.c:26-33 | neither side's general header, whatever size it carries, can be taken for a signal |
| Frames.CutGeneralFrame | src/zdtm_net.c:265-358 | a peer closing after k bytes of a general frame is a clean close exactly for k = 0 and k = 15, and a truncation otherwise |
| Frames.CutSignal | src/zdtm_net.c:265-282 | the same for a signal: clean only before its first byte |
| Frames.ChecksumIsExactUpTo257 | src/zdtm_msgs.c:71-86 | the 16-bit sum equals the byte sum for all bodies of n bytes if and only if n is at most 257 |
| Messages.SendableExactly | src/zdtm_msgs.c:105-237 | for which requests type and content fit 16 bits and the writer stays in its block, decided by RGE's length and by RDW's wrapped length alone |
| Messages.Msg.Clean | src/zdtm_msgs.c:88-103 | raw content and an RRL password are released, once, and forgotten |
| Messages.Msg.Checksum | src/zdtm_msgs.c:71-86 | the loop's wrapping accumulator is the byte sum of type and content modulo 65536 |
| Messages.Msg.Prepare | src/zdtm_msgs.c:105-243 | each failure code exactly when it is due, with nothing freed and the typed content untouched on every path; on success body size = content size + 3, the header carries the content size, the content starts with the request's bytes and the checksum is theirs |
| Messages.Msg.ParseRaw | src/zdtm_msgs.c:245-297 | dispatch on the type: typed content that says what the raw bytes say, its blocks new; -255 exactly for types that are not the device's |
| Net.Fill | src/zdtm_net.c:265-282 | a receive loop reads exactly the bytes it wants, however they are cut; -1 only when nothing had come and the peer closed, -2 when it closed part-way |
| Net.RecvMessage | src/zdtm_net.c:246-442 | return code, message and rest of the stream are those of the frame at its front, for every cutting and every allocation failure; without faults the seven bytes of the three signals give 1, 2 and 3; on every error before delivery the message is untouched and the temporary block freed |
| Net.RecvAll | src/zdtm_net.c:246-442 | receiving again and again into fresh messages from a stream of signals and device messages laid end to end gives exactly these frames one by one, each message holding and saying what its frame does, then the clean close with no byte left, for every cutting |
| Net.Deliver | src/zdtm_net.c:363-441 | header, type, content, sizes and checksum of the frame arrive in the message, the temporary block is freed, a request type ends in the parse-failure code with the raw fields filled |
| Net.SendLoop | src/zdtm_net.c:197-217 | what goes out is a concatenation of prefixes of the data whose lengths add up to its length |
| Net.SendSignal | src/zdtm_net.c:197-244 | the same of the seven bytes of a signal, which are 00 00 00 00 00 96 and 06, 05 or 18 |
| Net.SendMessageTo | src/zdtm_net.c:453-522 | the frame laid out is that of the prepared request; whatever happens the message owns nothing afterwards and a password has been freed; success is certain unless an allocation or the socket fails |
| Net.RequestReadsBack | src/zdtm_net.c:470-499 | a prepared request's frame, read back, gives header, type, content and checksum, and the size in its header is the content's |
| Net.UnknownVariationIsSent | src/zdtm_rdw_msg.c:51-84 | an unknown RDW variation is not refused: its length wraps to 65524 and seven bytes are written |
| Net.WholeSendIsIntact | src/zdtm_net.c:503-516 | one send that takes everything leaves the frame as it is |
| Net.IntactExactly | src/zdtm_net.c:503-516 | a frame survives partial sends if and only if every piece repeats the bytes that belong at its place |
| Net.SurvivorRepeats | src/zdtm_net.c:503-516 | in a frame that survives, every byte behind the first piece equals an earlier one at a distance of at least the first piece |
| Net.CutHeaderIsLost | src/zdtm_net.c:470-516 | a request never survives partial sends of which the first took at most the thirteen header bytes, whatever its content and however the rest went |
| Net.SignalNeedsOneSend | src/zdtm_net.c:197-217 | a signal survives if and only if one send took all of it; otherwise the seven bytes are no signal at all |
| Layouts.TypeLetters | src/zdtm_ray_msg.c:24 | each message type goes over the wire as its three letters, RAY here and the others likewise |
| Layouts.FrameSpelled | src/zdtm_net.c:246-442 | in a received general frame the size stands at 13, the type at 15, the content at 18 and the checksum behind it |
| Layouts.RequestSpelled | src/zdtm_net.c:470-499 | a request frame byte by byte: header with the content size at 9, body size at 13, type, content, and in the last two bytes the sum modulo 65536 of all bytes from 15 up to them, type included |
| Layouts.ContentCarries | src/zdtm_msgs.c:114-237 | what a reader finds at each offset of the content of every request type, given the bytes stored and the size announced |
| Layouts.TodoCarried | src/zdtm_common.c:111-193 | and of the todo record inside an RDW as it is written, offset by offset |
| Layouts.IdFrameSpelled | src/zdtm_rdr_msg.c:45-64 | the 27 bytes of a request for one item: header, letters, sync type, count 1, id byte by byte, sum |
| Layouts.IdListSpelled | src/zdtm_asy_msg.c:44-68 | in an ASY body a list's id stands at 0, its count at 1 and the k-th id at 3 + 4k |
| Layouts.AdiSpelled | src/zdtm_adi_msg.c:40-98 | in an ADI body of n rows the k-th abbreviation stands at 7 + 4k, the k-th type id at 7 + 4n + k, the descriptions from 7 + 5n on |
| Links.Link.Accept | src/zdtm_net.c:97-128 | a new connection, with the device's whole stream still to come and its records begun at the first byte |
| Links.Link.Receive | src/zdtm_net.c:246-442 | every frame taken from the stream is recorded, with the content of a general one, even if it then cannot be stored or parsed, and the records still are what happened to the streams |
| Links.Link.SendSignal | src/zdtm_net.c:219-235 | a signal recorded as sent has gone out over the session connection |
| Links.Link.SendMessage | src/zdtm_net.c:444-451 | a request recorded as sent has gone out as one frame with its bytes; the message owns nothing afterwards |
| Links.Link.Announce | src/zdtm_proto.c:46-52 | RAY over the other connection, its bytes on that socket |
| Links.Link.Await | src/zdtm_net.c:527-533 | one awaited signal, or at most one unexpected frame that is cleaned up: nothing stays allocated but what its content was parsed into; the signal in front of a connection without faults is certain to be taken |
| Links.Link.WrappedSend | src/zdtm_net.c:524-546 | on success request, message, acknowledgement and nothing else; each failure with the point it came at and at most one unexpected frame; the message's password has been freed except when the first wait failed; success is certain when the device sends a request signal and an acknowledgement and nothing fails |
| Links.Link.WrappedRecv | src/zdtm_net.c:548-575 | on success request, message, acknowledgement, the bytes of the two signals, and content that says what the body says in new blocks; a signal instead is passed up; without failures the result is decided by the frame in front |
| Links.Link.Ask | src/zdtm_proto.c:74-98 | a request and a reply of the wanted type, or a transcript that strays from that exchange; success is certain when the device serves it and nothing fails |
| Links.Link.Query | src/zdtm_proto.c:117-137 | the same with the message cleaned up: what stays allocated is the parsed content of the reply, and of at most one reply on a failing path that is cleaned up |
| Records.NothingUnheard | src/zdtm_net.c:246-442 | the incoming bytes used up by any run are the concatenation of exactly the frames its transcript and its replies record |
| Records.HearingIsDetermined | src/zdtm_net.c:246-442 | two runs against the same incoming bytes that took as many frames have the same frames, the same replies and the same bytes left, whatever the cutting, the sends and the allocations |
| Records.NothingUnaccounted | src/zdtm_net.c:197-217 | however partial the sends, as many bytes have gone out as the recorded signals and requests measure |
| Lockstep.SendIsThreeMoves | src/zdtm_net.c:524-546 | the sending endpoint of the two-party protocol makes exactly the transcript of a wrapped send |
| Lockstep.ReceiveIsThreeMoves | src/zdtm_net.c:548-575 | the receiving endpoint makes exactly that of a wrapped receive |
| Lockstep.StepKeepsInv | src/zdtm_net.c:524-575 | every step of either side keeps the two sides paired: within one transfer of each other, with the tokens under way determined by their positions |
| Lockstep.ReachableState | src/zdtm_net.c:524-575 | in every reachable state no call has failed, at most one message and two frames are under way, two only as ACK followed by RQST, the sides are at most one transfer apart, and each holds exactly the messages addressed to it in the transfers it is through with, in order |
| Lockstep.NoDeadlock | src/zdtm_net.c:524-575 | every run that is not finished can be continued |
| Lockstep.EverythingArrives | src/zdtm_net.c:524-575 | a run ends after exactly six steps a transfer, with every message delivered once and in order and both channels empty |
| Transcripts.GuardedNeedsPasscode | src/zdtm_sync.c:174-188 | in a run for which the passcode stage is due, whatever cuts it short, RMG, RTG, RMS, RTS, RSS or RDI goes out only behind an RRL answered by AEX |
| Transcripts.EveryRunIsGated | src/zdtm_sync.c:174-250 | the same for every request of every such run, refused ones included |
| Transcripts.NoPasscodeSent | src/zdtm_sync.c:174-188 | a run for which the passcode stage is not due sends no RRL, however it ends |
| Transcripts.RefusalIsQuiet | src/zdtm_proto.c:216-237 | a run that ends in ABRT and ANG has sent none of those requests |
| Transcripts.ResetsComeTogether | src/zdtm_sync.c:212-233 | a complete handshake sends two RMS and one RSS, or neither |
| Transcripts.HandshakeSaid | src/zdtm_sync.c:105-250 | the requests of a complete handshake in order, by name, and the frames the device has to send for it |
| Transcripts.StreamHas | src/zdtm_net.c:246-442 | well-formed frames laid end to end are a stream with these frames and these contents in front |
| Session.Env.ObtainDeviceInfo | src/zdtm_proto.c:74-115 | RIG/AIG; model, language and authentication state become those of the reply, the model string with room for a zero in its 256 bytes, and stay as they were on failure |
| Session.Env.ObtainSyncState | src/zdtm_proto.c:117-158 | RMG with the sync type, AMG; a flag is set exactly if it was or its bit of the third byte of the reply is clear, bit 0 for todo, 1 for calendar, 2 for address book, and never reset; certain to succeed when served |
| Session.Env.ResetSyncState | src/zdtm_proto.c:160-191 | RSS/AEX, and which flags the fall-through switch sets for which sync type |
| Session.Env.SendPasscode | src/zdtm_proto.c:193-213 | on every path the password block is new, and freed by the time the send is over; length modulo 256 and content are what went out |
| Session.Env.AuthenticatePasscode | src/zdtm_proto.c:193-245 | 0 only for RRL/AEX, 1 exactly for RRL, ABRT, ANG, and certain on a device that sends the one or the other; the password block is freed exactly once through every failure, and nothing else stays but what one reply was parsed into |
| Session.UnsetGoesUnnoticed | src/zdtm_proto.c:269-274 | the six addresses compared with 0 are never all null, so the test gives what is meant for exactly the timestamps that are not all zero |
| Session.Env.ObtainLastTimeSynced | src/zdtm_proto.c:247-317 | RTG/ATG; result 1 only if the six addresses are null, -4 and 0 otherwise, as mktime decides |
| Session.Env.SetLastTimeSynced | src/zdtm_proto.c:319-359 | RTS with the formatted time, AEX; -1 and -2, with nothing sent, exactly when the time cannot be broken down or printed |
| Session.FiveBytesSpelled | src/zdtm_proto.c:361-399 | the two logs of a reset as bytes: size 0 and zeros, size 5 and 1, 2, 3, 4, 5 and zeros |
| Session.Env.ResetSyncLog | src/zdtm_proto.c:361-426 | an empty log denied by ABRT and ANG, then a log of five bytes accepted |
| Session.Env.ObtainParamFormat | src/zdtm_proto.c:428-459 | a format already held is refused with nothing sent; a new one is the rows of the last reply, in new live blocks, counted and measured as recorded, each description short enough for the buffer it is copied to |
| Session.Env.CopyNames | src/zdtm_sync.c:240-247 | the copies of abbreviations and descriptions stay inside the 256 bytes of the local buffer |
| Session.Env.CheckCurAuthState | src/zdtm_sync.c:252-268 | 1 exactly for states 0x0b and 0x07, after fetching device info only when it is missing, in which case the state is the reply's |
| Session.Env.RequiresSlowSync | src/zdtm_sync.c:270-289 | the flag of the current sync type, type by type; -2 exactly for any other type, -1 only when the sync state was missing and could not be fetched; when it is held nothing at all changes |
| Session.Env.Connect | src/zdtm_proto.c:35-60 | each failure with what had gone out by then; on success both connections are new, RAY is all that went over one, and the records of the other begin |
| Session.Env.Greet | src/zdtm_sync.c:124-169 | both connections, RAY twice, ACK, AAY, in this order; -6 when a connection does not come about; certain on a device that sends ACK and AAY |
| Session.Env.OpenSession | src/zdtm_sync.c:124-188 | the opening and, exactly when the checked state is 0x0b or 0x07, the passcode stage; 1 exactly for a refusal; each failing result with the stage it ended in; certain to succeed, or to be refused, on a device that sends the frames for it |
| Session.Env.QueryDevice | src/zdtm_sync.c:190-210 | device info, sync state and last-sync time, in this order, flags only ever set, each failing result with its stage; certain when served, and then the slow-sync test is decided by the flags in the reply |
| Session.Env.Settle | src/zdtm_sync.c:212-239 | both slow-sync tests agree: log reset and state reset are both done or both left out; each failing result with its stage; certain when served |
| Session.Env.FramesExpected | src/zdtm_sync.c:105-250 | a device whose frames are those of a handshake, with the passcode stage and the resets its own AIG and AMG replies ask for, sends what `InitiateSync` is promised to succeed on |
| Session.Env.InitiateSync | src/zdtm_sync.c:105-250 | 0 exactly for the complete handshake, and then with the requests' contents as given by passcode, sync type and clock, 1 exactly for a refusal, every failing transcript a prefix of one of the two and at most one unexpected frame, in the stage the result tells; -7 with nothing sent for an unset type, -5 exactly for an unset address; behind a checked state of 0x0b or 0x07 guarded requests only after an accepted passcode, behind any other no RRL at all; certain to return 0 when nothing fails and the device sends the frames of the handshake, and 1 when it denies the passcode; after 0 and 1 the records are those of the new connection from its first byte; no flag reset; on success only a format is held, owned, and the one the device described in its last reply |
| ItemFields.SlotHasOneKey | src/zdtm_proto.c:513-1213 | in each of the three item structures no two (type id, abbreviation) pairs lead to the same member |
| ItemFields.TodoKeys | src/zdtm_proto.c:513-602 | for all type ids and abbreviations: which pair leads to which member of a todo, and the width of each fixed one |
| ItemFields.CalendarKeys | src/zdtm_proto.c:604-734 | the same for a calendar item |
| ItemFields.AddressKeys | src/zdtm_proto.c:736-1213 | the same for the fixed members and the category of an address item |
| ItemFields.AddressNameKeys | src/zdtm_proto.c:736-1213 | the abbreviations that lead to the name members of an address item |
| ItemFields.AddressWorkKeys | src/zdtm_proto.c:736-1213 | those of the work members |
| ItemFields.AddressHomeKeys | src/zdtm_proto.c:736-1213 | those of the home members |
| ItemFields.AddressPrivateKeys | src/zdtm_proto.c:736-1213 | those of the personal members |
| ItemFields.MemberHasKey | src/zdtm_proto.c:513-1213 | every member of the three structures has a pair that leads to it |
| Items.Item.StoreParam | src/zdtm_proto.c:524-599 | one round: for a value that fits, the designated member alone changes, to the value, a text in a block of its own; a failing malloc leaves the member's length set and its pointer NULL |
| Items.Item.ParseParams | src/zdtm_proto.c:513-602 | -1 exactly if the counts differ, 0 exactly if they agree and every malloc succeeds; then, when every value fits its member, all values stored in turn and every text in a new live block of its length; otherwise the code of the field whose malloc failed first, everything before it stored |
| Items.LastRowWins | src/zdtm_proto.c:524-1210 | a member ends up with the value of the last row that designates it and is untouched if none does, as long as no value is wider than its member |
| Items.ListedIsDesignated | src/zdtm_proto.c:513-1213 | a format that lists a member's pair has a row that designates it |
| Items.OnlyRowDecides | src/zdtm_proto.c:524-1210 | with distinct keys a member is what its only row, if any, makes of what was there before; values may be shorter than their members, not wider |
| Items.OrderIsFree | src/zdtm_proto.c:524-1210 | with distinct keys, permuting format and values together gives the same item, for values no wider than their members |
| Items.ItemRoundTrip | src/zdtm_proto.c:513-1213 | an item sent as ADR by a format sent as ADI, with distinct keys among which are those of the item's members, comes back member by member through both raw layouts and the item parser; the format may list members the item lacks, the item may lack members the structure has |
| Library.Init | src/zdtm_sync.c:34-67 | a clean environment unless the log does not open, in which case nothing changes |
| Library.SetSyncType | src/zdtm_sync.c:76-88 | 0, 1 and 2 store 0x06, 0x01 and 0x07, anything else 0x00 |
| Library.SetPasscode | src/zdtm_sync.c:90-103 | the copy is in a new block beside all the environment owns; without memory the passcode is NULL |
| Library.CheckCurAuthState | src/zdtm_sync.c:252-268 | called by itself: 1 exactly for a held state of 0x0b or 0x07, nothing changed when it was held before |
| Library.RequiresSlowSync | src/zdtm_sync.c:270-289 | called by itself: the flag of the type, -2 exactly for an unknown one, nothing changed when the sync state is held |
| Library.InitiateSync | src/zdtm_sync.c:105-250 | at any time and whatever became of the connection before: what the environment owns stays owned; success, which is exactly the complete handshake, needs an environment without format and leaves the format the device described, and is certain when nothing fails and the device sends the frames; whenever the checked state is 0x0b or 0x07 every guarded request is behind an accepted passcode, and for any other state none is sent |
| Library.Close | src/zdtm_sync.c:515-536 | every description, the format array and the passcode are released, each once, and nothing else; nothing on the failing paths |
| Library.ThreeBlocks | src/zdtm_sync.c:322-343 | three new distinct blocks exactly if three mallocs in a row succeed, and otherwise none stays allocated |
| Library.ObtainSyncIdLists | src/zdtm_sync.c:291-366 | all or nothing: on 0 the outputs are the wire's three lists in order in three new disjoint blocks, on any failure none of the six outputs changes and none of the three blocks stays; the parsed reply's own arrays do; certain to return 0 when nothing fails and the device serves it |
| Library.ObtainItem | src/zdtm_proto.c:461-491 | RDR for the sync id, with the id in the bytes on the wire, ADR; the values become the caller's, in new blocks; certain when served |
| Library.FreeParams | src/zdtm_proto.c:493-511 | releases the array and the blocks of non-empty values and nothing else |
| Library.EmptyValuesStay | src/zdtm_proto.c:493-511 | everything an ADR reply brought is released if and only if none of its values is empty |
| Library.FetchItem | src/zdtm_sync.c:368-450 | -1 exactly for a session of another type than 0x06, 0x01 or 0x07 as the kind wants, with nothing sent; the id asked for goes out byte by byte; when nothing fails and the device serves it, 0 exactly if the reply has as many values as the format rows, and otherwise -3; on success, when every value fits its member, the item is the reply's values stored by the format held |
| Library.DeleteItem | src/zdtm_sync.c:452-477 | RDD with the sync id in the bytes on the wire, AEX; certain when served |
| Library.StateSyncDone | src/zdtm_proto.c:1215-1241 | RDS, AEX; certain when served |
| Library.TerminateSync | src/zdtm_sync.c:479-513 | RQT, a reply of any type, RQST, RAY, in this order; a failing run strays from it; certain on a device that takes RQT, replies with anything that can be parsed and requests once more |
| Histories.HistoryKeeps | src/zdtm_sync.c:34-67 | over any sequence of calls between two initializations a slow-sync flag that is set stays set and a held format stays the same |
| Histories.SucceedsOnce | src/zdtm_proto.c:432-434 | so `zdtm_initiate_sync` returns 0 at most once between two initializations |
| Histories.AlwaysOwned | src/zdtm_sync.c:515-536 | and at every point before finalization a format that is held is an array of exactly num_params rows with descriptions of the recorded lengths, in live blocks of its own |
| Histories.Perform | src/zdtm_sync.c:34-536 | each call of the interface does what a history permits it |
| Histories.Drive | src/zdtm_sync.c:34-536 | a client making any finite sequence of calls, on any devices whose bodies are readable and fit the library's buffers, again after any refusal or failure, makes a history: no attempt to open a session is withheld, at most one returns 0, and format and passcode are owned before and after every call |
| Histories.SyncAndFetch | src/zdtm_sync.c:105-450 | a session opened and an item fetched: if the last reply of the handshake is the encoded format and the next reply the encoded item, the client's structure holds every member of the item, whatever it held before; and when nothing fails and the device sends the frames of the handshake and the item, both calls succeed |
| Histories.Lifetime | src/zdtm_sync.c:34-536 | from initialization through any calls to finalization, no block of the format or the passcode held at the end stays allocated |

## Left out

- Sockets are connected already: `socket`, `bind`, `listen`, `accept`, `connect` and `close` are parameters saying whether they succeed.
- A `send` that returns 0, after which the loops would try again: in the model each takes at least one byte.
- Logging in `src/zdtm_log.c`.
- Time zones and calendar arithmetic: whether `mktime`, `localtime_r` and `snprintf` succeed, and the formatted time, are parameters.
- Big-endian builds and the byte-swap loops of `src/zdtm_common.c`.
- `zdtm_calendar_length` and `zdtm_address_length`, sums without a writer to agree with.
- Bodies shorter than their own structure, and a model string or a description of 256 bytes and more: the source reads past the body, or writes past `model` in the environment and the local buffer of `zdtm_initiate_sync`, over the fields behind them. The streams of the model have no such frame.
- A body size below 3, for the same reason.
- What a call makes of a connection on which a receive failed inside a frame, when the bytes from there on cannot be read as frames with readable bodies: the client of `Histories.Drive` withholds the calls that would use such a connection, until `zdtm_initiate_sync` makes a new one.
- Descriptors: connections that are replaced are never closed, and a connection that `zdtm_terminate_sync` has closed is like one that is open.
- Struct padding, unions and the layout of `zdtm_msg`: contents are datatypes, a raw block is a block number beside its bytes. Pointers into one another's blocks (the shallow copy of the parsed format, for one) are ownership of those block numbers, and writing through one pointer is not seen through another.
- Strings with a terminating NUL: a passcode is the bytes before it.
- Widths of `int` beyond the 16- and 32-bit fields, and sizes of `size_t`.
- `_zdtm_parse_raw_msg` leaves what follows a parsed structure inside a body unread; so does the model, which does not require bodies to be exactly as long as their structure.
- Calls the library does not make itself: RLR, RGE and RDW are modelled as requests that can be sent, not as steps of a session.
- `zdtm_finalize` leaves dangling pointers in the environment; the model does not follow an environment past it.
- Items.Item.StoreParam: a value wider than a fixed-size member is copied over what lies behind it. The model lets every member change then and promises nothing about the item; it has no memory behind the structure.
- Items.LastRowWins: for values that fit their members only, since a wider one overwrites other members.
- Items.OnlyRowDecides: for values that fit their members only, as above.
- Items.OrderIsFree: for values that fit their members only: with a creation date of ten bytes the modification date behind it depends on which of the two rows comes last.
- Library.FetchItem: what the item holds is promised for values that fit their members only.
- Items.Item.ParseParams: the three parsers are one loop over three tables, and the members of an item structure are numbered entries of a map.
- Messages.Msg.Prepare: requests whose writer would run over its block, or whose size does not fit 16 bits with the type, are required away; SendableExactly says which they are.
- Net.SendMessageTo: the frame is laid out as one byte string, not by the advancing pointer of `src/zdtm_net.c:479-501`.
- Lockstep.EverythingArrives: both ends follow the same list of transfers, and a frame is one token of a channel.
- Session.Env.InitiateSync: the result -6 stands for three different failures and -7 for two, as in the source; each other failing result names one stage.
