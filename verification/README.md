# Verification model of the transfer, address, broadcast and container code

These Dafny files model the repository's hand-written protocols and data structures and prove
what they are for: that a resumed download leaves the server's file, that an upload is reported
once and rightly, that ranges of addresses are split exactly, that a retried request never leaks
credentials or repeats what must not be repeated, that broadcast frames and tags arrive, that timers
are reclaimed once, and that the caches and tables stand for what they claim.
`dafny verify dfyconfig.toml` checks the whole project.

## How it is built

Every protocol has two forms. One is a state machine: a datatype `State`, an `Event` for each thing
the program or its environment may do, and a total function `Step`; an event that is not possible
leaves the state as it is, so a sequence of events is one interleaving of threads, callbacks and
network, and a theorem about `Run(Start(..), es)` for every `es` is one about every interleaving. The
other is a class or a method with the program's own fields and loops, proved to do what the state
machine does; what a valid object guarantees to its callers is written at its `Valid()`.

| Files | What they model |
|---|---|
| `Basics`, `Text` | options, bytes; decimal and hexadecimal text, CRLF search |
| `ChunkedBody` | the chunked decoder of the download client under every fragmentation |
| `ResponseHead` | the fail-closed parser of response heads |
| `DownloadSession`, `DownloadSafety`, `DownloadContent`, `DownloadTheorems` | the two-thread download session |
| `DownloadChannel`, `DownloadSessionObject` | the same session as objects: body reading and queue; heads and writer thread |
| `RangeServer` | Range, If-Range and the reply to a file request |
| `Resume`, `ResumeProgress`, `ResumeCompletes`, `ResumeLiveness`, `ResumeExactly` | client and server together |
| `UploadSink`, `UploadSinkObject` | saving a request body to disk |
| `StreamSender`, `StreamSenderObject` | streaming a file as a response |
| `Ipv6Bytes`, `CidrSplit`, `CidrBlocks`, `CidrMembership` | addresses as big numbers, prefixes, the range splitter |
| `SendMachine`, `SendMachineObject` | outbound requests with retry, redirect and budget |
| `FrameCodec`, `TagSync` | broadcast framing and tag agreement |
| `TimerRegistry`, `TimerRegistryObject` | timers reclaimed while a callback may be running |
| `BucketLru` | the per-address rate buckets |
| `RouteOwnership`, `RouteHistory`, `RouteOwnershipObject` | which face owns a path; prefix rules |
| `Base64`, `ArrayList`, `BinaryTable`, `ObjectPool` | the codec and the containers |

The disk, the network, clocks and the libraries underneath are events or parameters: a read returns
`k` bytes, a write succeeds or leaves part of its bytes, the peer takes `n` bytes, a connection drops.

## Model

| member | source | states |
|---|---|---|
| ChunkedBody.FeedIsDecode | net/zm_net_http_client_download.cpp:1210-1293 | decoding segment by segment gives what decoding the whole stream gives, unless the segmented run refuses a size line as too long |
| ChunkedBody.DecodeAppend | net/zm_net_http_client_download.cpp:1210-1293 | what was decided on a prefix of the stream is not changed by more bytes |
| ChunkedBody.FragmentationIndependent | net/zm_net_http_client_download.cpp:1219-1236 | a complete stream decodes alike under every fragmentation if and only if every size line has at most 127 characters |
| ChunkedBody.DecodeEncode | net/zm_net_http_client_download.cpp:1210-1293 | every chunked encoding (RFC 7230 section 4.1), with extensions and trailer, decodes to exactly its chunks' data |
| ChunkedBody.DecodeSound | net/zm_net_http_client_download.cpp:1210-1293 | a stream that reached its end was a chunked encoding of exactly the data handed on |
| ChunkedBody.ChunkedTransfer | net/zm_net_http_client_download.cpp:873-912 | every body, split into non-empty chunks within the queue limit and cut into segments anyhow, comes out as it was |
| ChunkedBody.RefusingCut | net/zm_net_http_client_download.cpp:1219-1236 | a stream with a longer size line has a fragmentation under which it is refused |
| DownloadSafety.GateStep | net/zm_net_http_client_download.cpp:1340-1415 | every step of either thread keeps the one-shot gate: one terminal action at most, nothing behind it, one delivery |
| DownloadSession.DoLoopStep | net/zm_net_http_client_download.cpp:1066-1431 | a step of the loop leaves the writer alone and does one of three things: nothing to the queue, one more plain action with the planned content following it, or it closes the gate |
| DownloadSession.Take | net/zm_net_http_client_download.cpp:1521-1545 | the writer's waiting touches only the queue, the gate and the delivery, and ends exactly when it delivers |
| DownloadSession.Did | net/zm_net_http_client_download.cpp:1545-1650 | an action carried out touches only the files and the delivery; a terminal one ends the writer |
| DownloadTheorems.StepInv | net/zm_net_http_client_download.cpp:1066-1431 | every step of either thread keeps the invariant of queue, gate, content, deliveries and connections |
| DownloadTheorems.QueueRefinesPlan | net/zm_net_http_client_download.cpp:1396-1431 | until the session is over, the action in hand and the queued ones turn the file as it is into one as long as the cursor, in every interleaving |
| DownloadTheorems.SuccessContent | net/zm_net_http_client_download.cpp:1340-1363 | a reported success left at the destination what was resumed from, unless a 200 or a restart discarded it, and the whole framed body; the size reported is its size and within the quota for 200 and 206 |
| DownloadTheorems.OneShotGate | net/zm_net_http_client_download.cpp:1340-1415 | one delivery at most, one terminal action at most with nothing behind it; a closed gate has its terminal action on its way or handled, or the writer stopped or ended |
| DownloadTheorems.ConnectionsBounded | net/zm_net_http_client_download.cpp:1144-1207 | connections number at most one, plus the redirects used, plus one restart |
| DownloadTheorems.CallbackEnds | net/zm_net_http_client_download.cpp:1210-1363 | every callback of the loop comes to rest |
| DownloadTheorems.WriterDelivers | net/zm_net_http_client_download.cpp:1521-1684 | once the gate is closed or a stop asked for, the writer delivers exactly once within as many rounds as there are actions and one more, whatever the disk does |
| DownloadTheorems.EndedStays | net/zm_net_http_client_download.cpp:1665-1684 | after the delivery nothing is delivered again, in any run |
| DownloadChannel.BodyReader.EnqueueAction | net/zm_net_http_client_download.cpp:1396-1415 | which actions are admitted, exactly, and that the byte count kept is that of the queue |
| DownloadChannel.BodyReader.Fail | net/zm_net_http_client_download.cpp:1370-1393 | closes the gate once, with the first cause and one abort |
| DownloadChannel.BodyReader.EnqueueWrite | net/zm_net_http_client_download.cpp:1418-1431 | queues the bytes and moves the cursor, or fails with a backlog and moves nothing |
| DownloadChannel.BodyReader.HandleChunked | net/zm_net_http_client_download.cpp:1210-1293 | the loop hands on exactly what the decoder makes of the pending and the new bytes, in slices within the limit; a framing error is the decoder's |
| DownloadChannel.BodyReader.HandlePlain | net/zm_net_http_client_download.cpp:1294-1319 | whole slices go to the queue and the rest stays, in order and complete; failure only for length, quota or backlog |
| DownloadChannel.BodyReader.Complete | net/zm_net_http_client_download.cpp:1340-1363 | the residue is queued before the gate closes and the terminal action carries the cursor |
| DownloadSessionObject.SettleIsRun | net/zm_net_http_client_download.cpp:1126-1207 | handling a head to its end is a run of steps of the loop |
| DownloadSessionObject.Session.OnHead | net/zm_net_http_client_download.cpp:1066-1207 | a head is handled as the steps say, keeps the session's invariant and the bound on connections, and a body is read only with the cursor at the end of the planned file |
| DownloadSessionObject.Session.WriterLoop | net/zm_net_http_client_download.cpp:1521-1650 | the loop delivers at most once, for certain once it may end, and a success it delivers is the whole planned file |
| RangeServer.RangeMeaning | net/zm_net_http_server.cpp:3942-4010 | every well-formed byte range (RFC 7233 section 2.1), written out, is parsed to exactly the bytes it selects, and is unsatisfiable exactly when there are none |
| RangeServer.ReplyRead | net/zm_net_http_server.cpp:4457-4521 | the client's head parser reads from every reply of the server what the server meant |
| Resume.SystemRun | net/zm_net_http_client_download.cpp:742-763 | every run of client and server keeps what the client holds a prefix of the reply to the request it sent |
| Resume.ResumeGivesTheFile | net/zm_net_http_client_download.cpp:1066-1162 | whatever happened, a success leaves the server's current file if and only if a partial reply, when there was one, found a part that is a prefix of it |
| Resume.ResumeWithValidator | net/zm_net_http_server.cpp:4393-4404 | a success leaves the server's current file, of the reported size, when the part is of the version its validator names |
| ResumeProgress.ReplyEndsSession | net/zm_net_http_client_download.cpp:1322-1363 | when the whole reply has come in and the callback is over, the gate is closed |
| ResumeProgress.NoSpuriousFailure | net/zm_net_http_client_download.cpp:1066-1393 | against this server the client aborts only for a quota, a full queue, a lost connection, a timeout, or a partial reply that is streamed |
| ResumeCompletes.CompleteDeliverySucceeds | net/zm_net_http_client_download.cpp:1340-1363 | with the disk working, no disturbance, no write at a full queue and replies that can be taken, for either framing: no run reports a failure, and every run whose reply has come in whole and whose threads are done has delivered one success, with the file at the destination |
| ResumeLiveness.DownloadCompletes | net/zm_net_http_client_download.cpp:1066-1162 | from wherever an undisturbed run against one file has got to it can be completed, whatever the size of the queue next to the file: by a 206 if the range is partial, a restart if it is unsatisfiable, a 200 otherwise, and with the server's file at the destination |
| ResumeExactly.CanSucceedIff | net/zm_net_http_client_download.cpp:1066-1431 | some run against a file, however disturbed, ends with that file at the destination if and only if: no partial reply is streamed, file and error text are within the quota, a slice fits the queue or the body is shorter than one, and a part that is continued is a piece of the file |
| ResumeExactly.NecessaryFor | net/zm_net_http_client_download.cpp:1066-1431 | where one of these conditions is not met no run against the file, however it goes, ends with it at the destination |
| ResumeExactly.WrongPartSucceeds | net/zm_net_http_server.cpp:4393-4404 | for every part that the server continues and that is no piece of the file there is a run that reports success and leaves something else |
| ResumeExactly.NoValidatorWrong | net/zm_net_http_server.cpp:4393-4404 | in particular without validators |
| ResumeLiveness.RefusalRestarts | net/zm_net_http_client_download.cpp:1072-1112 | a refused range leads to a restart if and only if the text of the refusal is within the quota |
| ResumeLiveness.Nearer | net/zm_net_http_client_download.cpp:742-763 | at rest and not finished, some move of the world brings the end nearer |
| ResumeLiveness.StreamedPartialRefused | net/zm_net_http_client_download.cpp:1090-1096 | of a server that streams, a head is refused for its missing length if and only if the reply is partial |
| ResumeLiveness.StreamedResumeFails | net/zm_net_http_server.cpp:4590-4640 | for one: a part of one byte and a longer file, streamed |
| UploadSink.UploadOutcome | net/zm_net_http_server.cpp:2990-3172 | in every interleaving: one report; 128 blocks and 64 MB at most queued; a positive report only with every block in the file, in order, within the limit; a created file is gone after any other end |
| UploadSink.ReportArrives | net/zm_net_http_server.cpp:2990-3058 | after the end of the request, or a stop, the writer alone brings the run to its one report, whatever the disk does |
| UploadSinkObject.Sink.OnData | net/zm_net_http_server.cpp:3109-3150 | a block is queued, or the limits end the upload with an emptied queue and one negative report, or it is ignored |
| UploadSinkObject.Sink.OnFinish | net/zm_net_http_server.cpp:3155-3172 | the end is noted; an error reports at once, its absence leaves queue and report alone |
| UploadSinkObject.Sink.Deliver | net/zm_net_http_server.cpp:2974-2983 | the writer's result is the report unless there was one |
| UploadSinkObject.Sink.TakeBlock | net/zm_net_http_server.cpp:2990-3020 | the oldest block comes out of the queue, or the writer is told to end |
| UploadSinkObject.Sink.StoreBlock | net/zm_net_http_server.cpp:3021-3049 | the block is appended to the file, unless a stop or the disk is against it; past the limit the writer gives up |
| UploadSinkObject.Sink.WriterLoop | net/zm_net_http_server.cpp:2990-3058 | the whole writer leaves exactly the blocks passed in, or, only for a stop, the disk or the limit, no file that it created |
| StreamSender.StreamSafety | net/zm_net_http_server.cpp:299-494 | in every run: one timer or read outstanding at most; what went out is the file from the offset on; a live connection is never further ahead than watermark and one block; the end callback runs once |
| StreamSender.StallMeansFrozen | net/zm_net_http_server.cpp:346-400 | a peer given up as stalled stood still at every look for longer than the limit |
| StreamSender.StreamEnds | net/zm_net_http_server.cpp:346-494 | every run ends within a number of turns that the file, the peer's activity and its patience bound |
| StreamSenderObject.Sender.Run | net/zm_net_http_server.cpp:299-344 | the start sends nothing itself and keeps the guarantees; a file that does not open ends the run |
| StreamSenderObject.Sender.OnTimer | net/zm_net_http_server.cpp:346-400 | a timer sends nothing itself; it ends the run or leaves one thing outstanding |
| StreamSenderObject.Sender.ReadChunk | net/zm_net_http_server.cpp:165-192 | the read returns the bytes at the handle's place, or none |
| StreamSenderObject.Sender.OnReadDone | net/zm_net_http_server.cpp:402-445 | exactly the block that was read goes out; then one timer is set or the run has ended |
| Ipv6Bytes.CompareIsOrder | net/zm_net_ip.cpp:582-590 | byte-wise order is the order of the numbers |
| Ipv6Bytes.Compare | net/zm_net_ip.cpp:582-590 | the sign is the order of the two numbers, zero only for equal addresses |
| Ipv6Bytes.NextVal | net/zm_net_ip.cpp:648-664 | the carry adds one and wraps only from all ones |
| Ipv6Bytes.PrevVal | net/zm_net_ip.cpp:672-688 | the borrow subtracts one and wraps only from zero |
| Ipv6Bytes.PrevUndoesNext | net/zm_net_ip.cpp:648-688 | the predecessor of the successor is the address |
| Ipv6Bytes.AddressNext | net/zm_net_ip.cpp:648-688 | on 16 bytes both wrap at 2^128 and nowhere else |
| Ipv6Bytes.Next | net/zm_net_ip.cpp:648-664 | the loop in place leaves the successor |
| Ipv6Bytes.Prev | net/zm_net_ip.cpp:672-688 | the loop in place leaves the predecessor |
| Ipv6Bytes.NextInto | net/zm_net_ip.cpp:648-664 | with any output buffer, also the address itself: the bytes the carry reaches are the successor's, those in front stay what they were |
| Ipv6Bytes.PrevInto | net/zm_net_ip.cpp:672-688 | the same for the borrow |
| Ipv6Bytes.IntoIff | net/zm_net_ip.cpp:648-688 | the buffer then holds the neighbour if and only if it held the address's own bytes in front |
| CidrSplit.SplitIsExact | net/zm_net_ip.cpp:864-895 | a range that ends below the last address is tiled exactly by blocks of strictly growing prefix, each the largest that fits, every one after the first on its own boundary, 128 at most |
| CidrSplit.TilesPartition | net/zm_net_ip.cpp:864-895 | of tiling blocks exactly one holds each address of the range, and none holds another |
| CidrSplit.SplitIsShortest | net/zm_net_ip.cpp:864-895 | no list of blocks that covers the range exactly is shorter |
| CidrSplit.NothingShorterFits | net/zm_net_ip.cpp:872-884 | starting the search at the leading ones misses no shorter prefix |
| CidrSplit.LastAddressWraps | net/zm_net_ip.cpp:870-888 | a range that ends at the last address comes out as one block and then 511 times the whole space |
| CidrSplit.ExactIffBelowLast | net/zm_net_ip.cpp:864-895 | the split tiles the range if and only if it ends below the last address |
| CidrBlocks.MaskMeaning | net/zm_net_ip.cpp:777-822 | masking leaves the largest multiple of the block size below, filling the last address of the block |
| CidrBlocks.SubnetBits | net/zm_net_ip.cpp:741-768 | the loop counts the leading ones |
| CidrBlocks.MaskFromBits | net/zm_net_ip.cpp:777-805 | the loops write the mask of the prefix length |
| CidrBlocks.SubnetBroadcast | net/zm_net_ip.cpp:812-822 | the loop fills the host bits |
| CidrBlocks.CidrBlockContains | net/zm_net_ip.cpp:828-839 | the loop answers whether the masked address is the network |
| CidrBlocks.ContainsMeaning | net/zm_net_ip.cpp:828-839 | the answer is membership in the interval if the network address is on the block's boundary, and no otherwise |
| CidrBlocks.NextBlock | net/zm_net_ip.cpp:872-884 | the inner loop finds the block that reaches farthest |
| CidrBlocks.CidrFromRange | net/zm_net_ip.cpp:864-895 | the loops on byte arrays write out exactly the split |
| CidrMembership.FirstOnBoundary | net/zm_net_ip.cpp:872-884 | the first block of a range is on its own boundary if and only if the range starts at zero or ends before the last address of the largest block that starts where it does |
| CidrMembership.MembershipOfRange | net/zm_net_ip.cpp:828-895 | some block answers for an address if and only if it is in the range, and the range starts on such a boundary or the address is past every block that holds its start and stays inside |
| CidrMembership.ListRightIff | net/zm_net_ip.cpp:828-895 | the list answers for exactly the range, for every range up to and including the last address, if and only if it is empty or starts on such a boundary |
| CidrMembership.FirstAddressUnanswered | net/zm_net_ip.cpp:828-895 | of any other range below the last address, no block answers for its first address |
| CidrMembership.LastAddressAnswersAll | net/zm_net_ip.cpp:870-888 | of a range up to the last address, some block answers for every address |
| SendMachine.SendSafety | net/zm_net_http_client.cpp:627-865 | in every run: one report; budget, retries and redirects within their limits; credentials exactly while all requests so far named one target; no body once a GET; repeats only where harmless or allowed |
| SendMachine.NothingAfterReport | net/zm_net_http_client.cpp:817-865 | after the report no run sends or reports anything |
| SendMachine.AnsweredOnce | net/zm_net_http_client.cpp:700-815 | an answer that was taken is never taken again, in any run |
| SendMachine.SendEnds | net/zm_net_http_client.cpp:627-865 | a run whose outstanding callbacks happen, however they turn out, comes to its report within a bound |
| SendMachineObject.Machine.Start | net/zm_net_http_client.cpp:531-582 | starting sends nothing and ends at once only without a place to run |
| SendMachineObject.Machine.OnSchedule | net/zm_net_http_client.cpp:627-695 | a scheduled attempt sends one request at most, none after the report |
| SendMachineObject.Machine.OnAttemptResponse | net/zm_net_http_client.cpp:700-815 | an answer is taken once, sends nothing, and reports or leaves one attempt scheduled |
| SendMachineObject.Machine.RunPrelude | net/zm_net_http_client.cpp:601-624 | a body that could not be built ends the run with nothing sent |
| FrameCodec.LengthOfHeader | net/zm_net_broadcast_base.cpp:23-79 | the four length bytes read back as the length modulo 2^32 |
| FrameCodec.ReceivePrefix | net/zm_net_broadcast_client.cpp:475-489 | of any piece of the stream, cut anyhow, a front of the bodies is delivered in order, and only what is not yet deliverable is held |
| FrameCodec.RoundTrip | net/zm_net_broadcast_base.cpp:23-79 | however the stream is cut, exactly the bodies sent come out, with nothing left over |
| FrameCodec.PromptDelivery | net/zm_net_broadcast_client.cpp:475-489 | with bodies of two bytes or more every complete frame has been delivered |
| FrameCodec.EveryCutDelivers | net/zm_net_broadcast_base.cpp:23-79 | every cut delivers everything if and only if no body is above 16 MiB and the last has two bytes or more |
| FrameCodec.LateTailIsHeld | net/zm_net_broadcast_client.cpp:236-238 | a one-byte body at the end stays below the read watermark |
| FrameCodec.OversizeBlocks | net/zm_net_broadcast_base.cpp:23-54 | a body above the limit blocks everything after it, for good |
| FrameCodec.FrameEncode | net/zm_net_broadcast_base.cpp:56-79 | writes one frame behind what was there, or refuses an empty body and writes nothing |
| FrameCodec.DeliveredFrame | net/zm_net_broadcast_server.cpp:960-973 | the server's own framing gives the same bytes |
| FrameCodec.FrameDecode | net/zm_net_broadcast_base.cpp:23-54 | takes one whole frame from the front of the buffer, or leaves it |
| FrameCodec.OnRead | net/zm_net_broadcast_server.cpp:445-460 | the loop hands on every frame that is there, in order |
| TagSync.ApplyAllMeaning | net/zm_net_broadcast_server.cpp:473-549 | a tag is in the list after messages as the last that mentions it says, else as before |
| TagSync.Agreement | net/zm_net_broadcast_client.cpp:574-616 | whatever calls, disconnects and reconnects were interleaved, at every quiet moment the server has exactly the client's tags |
| TagSync.AgreementIff | net/zm_net_broadcast_client.cpp:664-741 | agreement at all quiet moments of all runs holds if and only if queued tasks are dispatched before a reconnect and the first list has no repeats |
| TagSync.TimelyAgreement | net/zm_net_broadcast_client.cpp:691-741 | every single run in which nothing queued is left at a connect agrees |
| TagSync.DuplicatesDisagree | net/zm_net_broadcast_client.cpp:118-143 | a first list with a repeat has a run that ends in disagreement |
| TagSync.LateTaskDisagrees | net/zm_net_broadcast_client.cpp:691-741 | for every list and tag, a task sent on the next connection outlives its undoing |
| TagSync.TagList.Add | net/zm_net_broadcast_client.cpp:87-112 | the loops append each tag that is not there |
| TagSync.TagList.Remove | net/zm_net_broadcast_client.cpp:118-140 | the loop erases the first occurrence of each tag |
| TagSync.TagList.OnMessage | net/zm_net_broadcast_server.cpp:510-549 | the server applies a message to its list |
| TagSync.Client.Subscribe | net/zm_net_broadcast_client.cpp:87-116 | a call changes the list and queues the message if the handshake is done, and refuses an empty list |
| TagSync.Client.Unsubscribe | net/zm_net_broadcast_client.cpp:118-143 | likewise |
| TagSync.Client.OnDispatch | net/zm_net_broadcast_client.cpp:729-741 | all queued tasks are written in order, or dropped without a connection |
| TagSync.Client.HandleSettings | net/zm_net_broadcast_client.cpp:574-616 | the confirmation goes up first and the whole list behind it |
| TimerRegistry.RegistrySafety | util/zm_util_evbase_runloop.cpp:237-298 | in every run: nothing that is gone is touched, no event freed twice, the running callback's entry is there, one timer at most waits and cannot fire |
| TimerRegistry.ExitFreesAll | util/zm_util_evbase_runloop.cpp:43-70 | at the end every event ever made has been freed exactly once |
| TimerRegistry.DeadForGood | util/zm_util_evbase_runloop.cpp:396-484 | a retired timer's event is never armed again, in any run |
| TimerRegistry.RemoveEnds | util/zm_util_evbase_runloop.cpp:237-263 | a removed timer is not found any more, and no other appears |
| TimerRegistryObject.RunLoop.AddTimer | util/zm_util_evbase_runloop.cpp:115-156 | a new identity with an armed event, or zero and nothing left behind |
| TimerRegistryObject.RunLoop.StopTimer | util/zm_util_evbase_runloop.cpp:159-175 | afterwards the timer cannot fire; the answer says whether it could |
| TimerRegistryObject.RunLoop.ArmTimer | util/zm_util_evbase_runloop.cpp:178-192 | afterwards the timer is armed exactly when the answer says so |
| TimerRegistryObject.RunLoop.RemoveTimer | util/zm_util_evbase_runloop.cpp:237-263 | the timer is gone, its entry kept only while its own callback runs |
| TimerRegistryObject.RunLoop.RemoveAllTimers | util/zm_util_evbase_runloop.cpp:268-285 | the loop leaves no timer, also from within a callback, and counts those that were there |
| TimerRegistryObject.RunLoop.DrainRetired | util/zm_util_evbase_runloop.cpp:464-484 | the loop frees what waits, each event once, except the timer being dispatched |
| TimerRegistryObject.RunLoop.OnTimerDispatch | util/zm_util_evbase_runloop.cpp:396-430 | the dispatched entry is there and everything else that waited is freed |
| TimerRegistryObject.RunLoop.OnReturn | util/zm_util_evbase_runloop.cpp:430-452 | a timer that fires once is retired when its callback is over |
| BucketLru.SameBucketIff | net/zm_net_http_server.cpp:5144-5198 | an address gets its bucket back if and only if fewer distinct others than the limit were used since |
| BucketLru.UseAllInv | net/zm_net_http_server.cpp:5144-5198 | over any uses addresses and buckets stay distinct and within the limit |
| BucketLru.PositionIsIndex | net/zm_net_http_server.cpp:5144-5198 | the position kept for an address leads to where it stands in order of use |
| BucketLru.IpRateLimiter.BucketFor | net/zm_net_http_server.cpp:5168-5197 | maps, list and positions stay one plain list in order of use |
| RouteOwnership.RebuildIsFirst | net/zm_net_http_server.cpp:652-692 | the table of owners is the claims seen through their first claimants |
| RouteOwnership.ScanIsLongest | net/zm_net_http_server.cpp:801-842 | in whatever order the map is read, the scan finds the longest covering root |
| RouteOwnership.TablesAgree | net/zm_net_http_server.cpp:3687-3764 | after any declarations both tables hold exactly what is claimed, under its first claimant; once open every face has what it claims and the snapshot gives every route to its registrant |
| RouteOwnership.UniqueIffEachOwns | net/zm_net_http_server.cpp:3687-3764 | no two claims clash if and only if every face owns what it claims |
| RouteHistory.RegistrationFollows | net/zm_net_http_server.cpp:3590-3672 | after any events before opening, registration follows the current claims on every path if and only if no opening has passed its check or the table is as it was at the last that did |
| RouteHistory.PathFollows | net/zm_net_http_server.cpp:3590-3672 | the same for one path: if and only if its owner is the one at the last opening that passed |
| RouteHistory.FollowsSinceOpening | net/zm_net_http_server.cpp:3556-3672 | ever since the last opening that passed, registration has followed the claims if and only if no declaration since changed the table |
| RouteHistory.HistoryTells | net/zm_net_http_server.cpp:3556-3580 | the tables and the snapshot are a function of the declarations and openings made |
| RouteOwnership.StaleSnapshotRefuses | net/zm_net_http_server.cpp:3590-3672 | a face is refused at the root it owns, after an opening that passed its check and then failed |
| RouteOwnership.FirstMatchIsLongest | net/zm_net_http_server.cpp:878-916 | whatever order an unstable sort leaves, the first match is the longest matching prefix |
| RouteOwnership.DeclareMeaning | net/zm_net_http_server.cpp:3854-3887 | a declaration leaves one rule for its prefix, the new one, and the others as they were |
| RouteOwnershipObject.MakeTable | net/zm_net_http_server.cpp:652-692 | the loop makes the table of first claimants |
| RouteOwnershipObject.LookupInTable | net/zm_net_http_server.cpp:801-842 | the loop finds the face of the longest covering root |
| RouteOwnershipObject.Clashes | net/zm_net_http_server.cpp:3687-3720 | the nested loops find a clash if and only if there is one |
| RouteOwnershipObject.Registry.CheckRouteOwnership | net/zm_net_http_server.cpp:3640-3672 | a route is accepted and logged exactly for the owner |
| RouteOwnershipObject.Registry.ValidateRouteOwnership | net/zm_net_http_server.cpp:3687-3764 | passes if and only if roots and ports are unique and every route is still with its face, and then fixes the snapshot |
| Base64.DecodeEncode | net/zm_net_http_client_download.cpp:333-363 | reading back what was written gives the bytes (RFC 4648 section 4), through an accumulator of 24 bits |
| Base64.EncodedLength | net/zm_net_http_client.cpp:118-146 | four characters for every three bytes begun |
| Base64.Base64Encode | net/zm_net_http_client.cpp:118-146 | the loop writes what reads back as the input |
| Base64.Base64Decode | net/zm_net_http_client_download.cpp:333-363 | the loop reads the text, or nothing if a character does not belong |
| ArrayList.List.Insert | util/zm_util_container.h:268-287 | the contents with the cleared element at its place, the array grown when it is full |
| ArrayList.List.Remove | util/zm_util_container.h:293-302 | the contents without the element |
| BinaryTable.Table.Search | util/zm_util_container.h:747-782 | halving finds the place of the key, and whether it is there |
| BinaryTable.Table.Get | util/zm_util_container.h:577-581 | what the finite map holds for the key |
| BinaryTable.Table.Put | util/zm_util_container.h:611-620 | the finite map with the entry, an absent value leaving one that is there |
| BinaryTable.Table.Remove | util/zm_util_container.h:627-627 | the finite map without the key, and a copy of the entry |
| BinaryTable.Table.RemoveEx | util/zm_util_container.h:639-656 | the finite map without what meets the condition, the values in order |
| BinaryTable.Table.ForEach | util/zm_util_container.h:669-686 | every matching entry visited once in the order of the keys, and those the action rejects taken out of the map |
| BinaryTable.VisitsInOrder | util/zm_util_container.h:669-686 | the values visited are those of the matching entries, by rising key |
| BinaryTable.StandsForOne | util/zm_util_container.h:747-782 | a sorted array stands for one finite map only |
| ObjectPool.KeysDiffer | util/zm_util_container.h:404-426 | different slots have different keys, because a key covers no more than a slot |
| ObjectPool.WideKeysCollide | util/zm_util_container.h:404-426 | with a key that covers more than a slot two slots share one |
| ObjectPool.Pool.Apply | util/zm_util_container.h:439-461 | a cleared slot that nobody holds, every held one untouched |
| ObjectPool.Pool.Release | util/zm_util_container.h:470-481 | a held slot is idle and cleared, an idle one stays as it is |

## Findings

Properties that the code does not have on all inputs, with where it fails and, as a theorem, exactly when
it holds.

| Property | Where it fails | Holds exactly when |
|---|---|---|
| A chunked stream is accepted or refused whatever the fragmentation | a size line of more than 127 characters cut in the middle (`ChunkedBody.RefusingCut`) | every size line has at most 127 (`ChunkedBody.FragmentationIndependent`) |
| A resume gives the server's file | a part that the server continues and that is no prefix of the file: `ResumeExactly.WrongPartSucceeds`, without validators `ResumeExactly.NoValidatorWrong` | a partial reply, when there was one, found a prefix (`Resume.ResumeGivesTheFile`) |
| A file that the server has can be downloaded | a streamed partial reply; a file above the quota; a refused range when the quota is below the length of the refusal's text (`ResumeLiveness.RefusalRestarts`); slices larger than the queue and a body of at least a slice; a wrong part: for each no run succeeds (`ResumeExactly.NecessaryFor`) | none of these (`ResumeExactly.CanSucceedIff`) |
| A partial reply of this server is accepted by its own client | a streamed one, which has no Content-Length (`ResumeLiveness.StreamedResumeFails`) | the reply is not both streamed and partial (`ResumeLiveness.StreamedPartialRefused`) |
| A range is split exactly | the range ends at the last address (`CidrSplit.LastAddressWraps`) | it ends below (`CidrSplit.ExactIffBelowLast`) |
| Some block listed answers for exactly the range | the largest block that starts where the range does fits into it, so a larger prefix is listed for it: its first address is unanswered (`CidrMembership.FirstAddressUnanswered`); or the range ends at the last address and every address is answered for (`CidrMembership.LastAddressAnswersAll`) | `from > to`, or `from == 0`, or `to < Ceil(from, Tz(from))`, the last address of that block, with `Tz` the number of trailing zero bits (`CidrMembership.ListRightIff`) |
| `Next` and `Prev` give the neighbouring address | a second buffer that held something else in front of the bytes reached | it held the address's own bytes there (`Ipv6Bytes.IntoIff`) |
| Every frame sent is delivered | a last body of one byte (`FrameCodec.LateTailIsHeld`); a body above 16 MiB, which the sender does not refuse (`FrameCodec.OversizeBlocks`) | no body is above the limit and the last has two bytes (`FrameCodec.EveryCutDelivers`) |
| Client and server agree on tags | a repeat in the first list (`TagSync.DuplicatesDisagree`); a task sent on a later connection (`TagSync.LateTaskDisagrees`) | neither (`TagSync.AgreementIff`); for a single run, `TagSync.TimelyAgreement` |
| A face may register at the root it owns | an opening passed its check, failed later, and the roots changed (`RouteOwnership.StaleSnapshotRefuses`) | the table is as it was at the last opening that passed (`RouteHistory.RegistrationFollows`) |

Smaller observations, each modelled as the code does it: a 2xx other than 200 and 206 on a resumed
session appends to the old part, writes no sidecar, and its quota leaves out what was there before, so the
quota is proved for 200 and 206; the check of a declared size adds modulo 2^64, but the bytes received
are still counted; an upload whose file cannot be opened is reported as too large; the byte count of the
upload queue is not reset when the queue is emptied, so it is an upper bound then; the stream sender's
branch for an end with a read in flight is never reached; a read error or a short file ends a stream like a
complete one; the code counts leading ones of the address where its comment speaks of the lowest non-zero
bit; a frame of length zero is consumed and stops the loop; an attempt is counted even when its address is
bad; the limiter keeps one bucket even with a limit of zero; a root with a trailing slash covers only
itself.

## Left out

- Sockets, TLS, DNS, JSON, logging, coroutines, the process lifecycle and the Windows file calls: events or parameters.
- Header names and values reach `ResponseHead` lower-cased and trimmed; a redirect target's validity and the sidecar's text size are parameters of the event.
- A queue limit of 2^64 - 1 is excluded, because the code uses that number for "no size"; file sizes are below 2^64.
- Checksum verification of a download is a result of the disk; dropping of credentials on a download redirect and the stall guard's clock are not modelled (a guard that gives up is an event).
- The sidecar across several sessions: each session starts from any part and any sidecar, and the theorems say what is needed of them.
- DownloadSessionObject.Session: its methods run without the other thread coming between; the interleavings are those of DownloadSession.
- IPv6: the one-bit shifts, address text and `RangeContaints` are not modelled; overlapping buffers other than the same one are not.
- Retry delays, Retry-After, choice of a pooled connection and statistics of the send machine.
- Broadcast overflow discard, heartbeats and bind retries.
- Timer identities do not wrap at 2^64; calls from other threads and a restart of the loop are not modelled.
- StreamSenderObject.Sender.ReadChunk: a read that fails after returning bytes is one that returns none; the run ends either way.
- BinaryTable.Table.ForEach: the condition and the action are functions of the value; an action that changes the table itself is not modelled. `GetEx`, `Values` and `ValuesEx` would only add easy members.
- ArrayList: `Swap` and `SetAt` would only add easy members.
- RouteOwnership.DeclareMeaning: the options of a rule come merged with the defaults, one value.
