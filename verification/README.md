# mprpc, mymuduo and chat: a verified model

A Dafny model of a reactor-based network library (`mymuduo-main`), of the RPC framework on top of it
(`mprpc-main`) and of the chat server that uses it (`chat-main`). It follows a byte from the client
that frames a call, through the kernel's arbitrary pieces, the growable buffer and the message loop,
to the dispatched call; and it follows tasks, connections, log lines and chat messages across the
threads and servers that hand them to each other.

`dafny verify dfyconfig.toml` checks the whole project.

| file | part of the system |
|---|---|
| `Bytes.dfy`, `Utf8.dfy` | bytes, fixed-width integers, well-formed UTF-8 (RFC 3629, section 4) |
| `Buffer.dfy` | the byte queue over one vector and two indices |
| `Wire.dfy` | the Protocol Buffers encoding: varints, tags, length-delimited records, groups, unknown fields |
| `Messages.dfy` | parsing a body into a message, field by field; what concatenation means |
| `RpcHeader.dfy`, `UserMessages.dfy` | the generated classes: parser, writer, size and merge of each |
| `Framing.dfy` | the frame at the head of a byte queue, draining a queue, streams of frames |
| `RpcProvider.dfy` | the client's framing, the provider's message loop, a whole connection |
| `EventLoop.dfy` | the task queue and wakeup protocol |
| `Poller.dfy` | channels, the poller's index state machine, the kernel's interest set |
| `Link.dfy` | one connection as a value: send, flush, half close, queued tasks, re-entrant callbacks; what every event keeps |
| `LinkRuns.dfy` | what holds of every run of a connection: conservation, half close, order, destruction |
| `LinkSteps.dfy` | what single events bring about: flushing and its progress, sending, opening, closing, the queue |
| `TcpConnection.dfy` | the connection as a class, proved against the value it stands for |
| `TcpServer.dfy` | accepting, closing and destroying connections over several loops |
| `Chat.dfy` | presence and message routing over several servers |
| `ChatRuns.dfy` | sessions and the way of every message, told from the commands of a run |
| `Logging.dfy` | the closing queue, the flush thread and the destructor |

How the outside world enters:

- readv delivers any prefix of what is there, up to the room it is offered; write takes any prefix, or
  fails with EWOULDBLOCK, EPIPE or ECONNRESET, or another error, and always fails with EPIPE once
  SHUT_WR was issued, which itself succeeds; epoll_ctl refuses to add what is
  present and to change or delete what is absent; poll reports the eventfd only when its counter is
  positive, and may return without any event.
- A callback on a connection is the finite tree of the sends and shutdowns it makes, each with the
  kernel's answer and the callback that the send itself triggers.
- Threads are interleaved steps; a section under one mutex, one system call, or one access to an
  atomic flag is one step. What a connection does on its loop's thread for one event is one step in
  `Link.dfy` and `TcpServer.dfy`; a send on another thread is two, the test of the state and the push of
  its task, with anything in between.
- The request types of registered methods are given by the predicate that says which argument bytes
  they can parse. The host is little-endian. MySQL tables and Redis channels are a map, a list of rows
  and a list of messages in flight.

Where the code keeps less than a first reading suggests, the exact condition is proved, and an input
that fails is given where the condition does not show one:

- a written header parses back iff both names are UTF-8 (the writer only logs, the parser fails):
  `RpcHeaders.HeaderRoundTrip`;
- a call arrives iff its frame is shorter than 2^32 bytes, its names are UTF-8, its method is registered
  and its arguments parse: `Framing.FrameDelivered`; any other call of that size ends the
  connection's calls for good: `Framing.BadCallBlocks`;
- the loop waits for a whole header iff the header size plus four fits 32 bits, and for whole arguments
  iff their end does: `Framing.IncompleteHeaderWaits`, `Framing.IncompleteArgsWait`; ten bytes that are
  acted on although most of their frame is missing: `Framing.ShortFrameWraps`;
- no run after `loop()` is entered sleeps on a task iff the owner queued none before, or another thread
  queued one too: `EventLoops.SafeAfterExactly`, `EventLoops.OwnerTaskSleeps`;
- a message follows in a connection's stream iff it is not the case that it is nonempty, nothing is
  queued before it and the kernel answers EPIPE or ECONNRESET, as it does after SHUT_WR:
  `LinkRuns.SendLosesExactly` for one send, `LinkRuns.LossExactly` for whole runs, `LinkRuns.LosingRun`;
- when SHUT_WR is issued in a run without faults, every nonempty message that other threads had queued
  is written iff none of them is still in the loop's queue: `LinkRuns.HalfCloseExactly`; those that are
  will be lost: `LinkRuns.HalfCloseFinal`, `LinkRuns.HalfCloseOvertakes`;
- a queued send finds its connection undestroyed iff its push came before the destruction was queued:
  `LinkRuns.TasksFindConnection`; no later run queues one behind it iff no thread stood between its test
  and its push at that moment: `LinkRuns.RemovalSafeExactly`, `LinkRuns.LateTask`;
- `disableAll` alone leaves the kernel set iff the channel was in it; on a new or deleted channel it
  adds an empty interest: `Pollers.DisableAllAlone`;
- a command keeps the presence iff it is not a logout of an online user on a server that does not map
  the user: `Chat.StepKeepsPresence`, over runs `Chat.PresenceUntilStray`, and
  `Chat.StrayLogoutDoubles` for a message that is then delivered twice;
- a sign-in takes effect on its own connection iff the server does not map the user to another one still:
  `ChatRuns.SignInTakesExactly`, `ChatRuns.StaleConnection`;
- routing one copy adds exactly one copy iff the user is offline, on the sending server, or subscribed
  by exactly one server: `Chat.TellConservesExactly`;
- a closed connection is forgotten iff at most one user had logged in on it:
  `Chat.Cluster.ClientCloseException`, `Chat.TwoLoginsOneClose`;
- the log file holds every accepted line after the destructor's join iff none of them is empty:
  `Logging.JoinedMeansWritten`, `Logging.EmptyLineStopsEarly`.

## Model

| member | source | states |
|---|---|---|
| Buffers.Buffer.constructor | mymuduo-main/src/Buffer.cpp:5-10 | A new buffer is empty and has its first size plus the prepend area. |
| Buffers.Buffer.Retrieve | mymuduo-main/src/Buffer.cpp:37-47 | The first bytes leave the queue, or all of them when fewer are there; the vector stays. |
| Buffers.Buffer.RetrieveAllAsString | mymuduo-main/src/Buffer.cpp:56-61 | The whole queue is handed out and is empty afterwards. |
| Buffers.Buffer.Append | mymuduo-main/src/Buffer.cpp:70-75 | The queue grows by exactly the data at its end; the capacity bound is kept and a new vector is strictly larger. |
| Buffers.Buffer.EnsureWritableBytes | mymuduo-main/src/Buffer.cpp:106-113 | Room for the asked bytes exists afterwards without touching the queue, within the bound that counts them. |
| Buffers.Buffer.MakeSpace | mymuduo-main/src/Buffer.cpp:147-160 | Either branch makes the room and keeps the queue; the moving branch is entered only past the prepend area. |
| Buffers.Buffer.Compact | mymuduo-main/src/Buffer.cpp:153-159 | The overlapping forward copy loses no readable byte. |
| Buffers.Buffer.Resize | mymuduo-main/src/Buffer.cpp:151 | Growing the vector keeps both indices and the queue. |
| Buffers.Buffer.ReadFd | mymuduo-main/src/Buffer.cpp:78-103 | However a scatter read splits over the tail and the stack buffer, exactly the bytes read join the queue; an error changes nothing. |
| Buffers.Perform | mymuduo-main/src/Buffer.cpp:78-103 | Of what has arrived, one read takes exactly as much as the tail and, when that is small, the stack buffer have room for. |
| Buffers.Replay | mymuduo-main/src/Buffer.cpp:37-103 | Any run of operations, with reads of any length, behaves as a plain byte queue, and the vector never exceeds the larger of its first size and twice the peak, plus the prepend area. |
| Wire.VarintRoundTrip | mprpc-main/proto/mprpc.pb.cc:207-264 | A written varint is read back with its length, whatever follows it. |
| Wire.VarintLength | mprpc-main/proto/mprpc.pb.cc:275-303 | The size table is the length of the written varint, for every 64-bit value. |
| Wire.FieldsConcat | mprpc-main/proto/mprpc.pb.cc:178-233 | The fields of a well-formed body followed by another body are the fields of the two in order, unknown fields and groups included. |
| Wire.FieldsRoundTrip | mprpc-main/proto/mprpc.pb.cc:235-273 | Any list of written fields is read back as that list. |
| Wire.FixedWidths | mprpc-main/proto/mprpc.pb.cc:217-226 | Fixed-width fields of any number take up four or eight bytes. |
| Wire.ParseEnds | mprpc-main/proto/mprpc.pb.cc:217-222 | A closing tag, field number zero and the unused wire types end a parse in failure. |
| Wire.LongVarintRefused | mprpc-main/proto/mprpc.pb.cc:207-209 | A varint with more bytes than it may have is refused. |
| Wire.LongLengthRefused | mprpc-main/proto/mprpc.pb.cc:187-189 | A length beyond the bytes that are there, or of 2 GiB and more, is refused. |
| Wire.WrongCloseRefused | mprpc-main/proto/mprpc.pb.cc:217-226 | A group that another tag closes is refused. |
| Wire.GroupSkipped | mprpc-main/proto/mprpc.pb.cc:223-226 | A group of any number is skipped whole, whatever written fields it holds. |
| Wire.NestingExactly | mprpc-main/proto/mprpc.pb.cc:223-226 | Nested groups are skipped exactly down to the depth limit. |
| Messages.ParseConcat | mprpc-main/example/user.pb.cc:267-311 | For any two bodies and any message, parsing the concatenation is parsing the second into the result of the first (last one wins). |
| Utf8.ValidExactly | mprpc-main/proto/mprpc.pb.cc:190-200 | The strings accepted as names are exactly the encodings of sequences of Unicode scalar values, by their bits. |
| Utf8.AsciiIsValid | mprpc-main/proto/mprpc.pb.cc:190-200 | Every string of ASCII bytes is accepted. |
| Utf8.Examples | mprpc-main/proto/mprpc.pb.cc:190-200 | Three encodings byte by byte, and an overlong, a surrogate and a cut sequence that are refused. |
| RpcHeaders.HeaderMergesWhenParsed | mprpc-main/proto/mprpc.pb.cc:312-330 | Parsing a written header into any header merges it in exactly when its names are UTF-8, and fails otherwise. |
| RpcHeaders.HeaderRoundTrip | mprpc-main/proto/mprpc.pb.cc:178-273 | Parsing undoes writing if and only if both names are UTF-8. |
| RpcHeaders.HeaderConcatMerges | mprpc-main/proto/mprpc.pb.cc:312-330 | Two written headers in a row parse to their merge. |
| RpcHeaders.HeaderLastWins | mprpc-main/proto/mprpc.pb.cc:178-233 | Which bodies are headers at all, and that the last field of each number decides, unknown ones aside. |
| RpcHeaders.HeaderNesting | mprpc-main/proto/mprpc.pb.cc:223-226 | A hundred nested unknown groups are read, a hundred and one are not. |
| RpcHeaders.HeaderFieldsWritable | mprpc-main/proto/mprpc.pb.cc:275-303 | The byte size computed from the fields is the length of the written header. |
| RpcHeaders.RpcHeader.InternalParse | mprpc-main/proto/mprpc.pb.cc:178-233 | The parse loop accepts exactly the bodies whose fields can all be set, and leaves the message they lead to. |
| RpcHeaders.RpcHeader.ParseFromString | mprpc-main/proto/mprpc.pb.cc:166-233 | Parsing starts from an empty header, whatever the object held. |
| RpcHeaders.RpcHeader.InternalSerialize | mprpc-main/proto/mprpc.pb.cc:235-273 | The writer produces the nonempty fields in order, as many bytes as the size says. |
| RpcHeaders.RpcHeader.SerializeToString | mprpc-main/src/mprpcchannel.cc:43-51 | Writing fails exactly on a header beyond the message limit. |
| RpcHeaders.RpcHeader.ByteSizeLong | mprpc-main/proto/mprpc.pb.cc:275-303 | The accumulated size is the size of the value the object stands for. |
| RpcHeaders.RpcHeader.MergeFrom | mprpc-main/proto/mprpc.pb.cc:312-330 | Set fields of the other header replace this one's, unset ones leave them. |
| UserMessages.Int32RoundTrip | mprpc-main/example/user.pb.cc:274-323 | Sign extension to 64 bits and truncation to 32 undo each other; a negative code takes ten bytes. |
| UserMessages.ResultMergesWhenParsed | mprpc-main/example/user.pb.cc:369-384 | Parsing a written result into any result merges it in, at any nesting depth. |
| UserMessages.ResultRoundTrip | mprpc-main/example/user.pb.cc:267-360 | Every result, negative codes included, survives writing and parsing, and its size is exact. |
| UserMessages.ResultConcatMerges | mprpc-main/example/user.pb.cc:267-384 | Two written results in a row parse to their merge. |
| UserMessages.ResultLastWins | mprpc-main/example/user.pb.cc:267-311 | The last code, cut to 32 bits, and the last text decide; what is not there stays as it was. |
| UserMessages.ResultExample | mprpc-main/example/user.pb.cc:313-337 | A written result with a negative code, byte by byte. |
| UserMessages.LoginMergesWhenParsed | mprpc-main/example/user.pb.cc:734-852 | Parsing a written response into any response merges it in, the nested result recursively. |
| UserMessages.LoginRoundTrip | mprpc-main/example/user.pb.cc:734-827 | Every response, with or without the nested result, survives writing and parsing, and its size is exact. |
| UserMessages.LoginConcatMerges | mprpc-main/example/user.pb.cc:734-852 | Two written responses in a row parse to their merge, presence included. |
| UserMessages.LoginLastWins | mprpc-main/example/user.pb.cc:734-777 | The last success counts; the nested result is there exactly when some field carries one, and is what all their bodies say together. |
| UserMessages.LoginExample | mprpc-main/example/user.pb.cc:779-804 | A written response with its nested result, byte by byte. |
| UserMessages.ResultCode.InternalParse | mprpc-main/example/user.pb.cc:267-311 | The loop agrees with setting the fields of the body one by one. |
| UserMessages.ResultCode.InternalSerialize | mprpc-main/example/user.pb.cc:313-337 | The writer produces the nonempty fields in order, as many bytes as the size says. |
| UserMessages.ResultCode.ByteSizeLong | mprpc-main/example/user.pb.cc:339-360 | The accumulated size is the size of the value the object stands for. |
| UserMessages.ResultCode.MergeFrom | mprpc-main/example/user.pb.cc:369-384 | Set fields of the other result replace this one's. |
| UserMessages.LoginResponse.InternalParse | mprpc-main/example/user.pb.cc:734-777 | The loop agrees with setting the fields one by one, allocating and merging the nested result in place. |
| UserMessages.LoginResponse.InternalSerialize | mprpc-main/example/user.pb.cc:779-804 | The writer nests the result with its own size. |
| UserMessages.LoginResponse.ByteSizeLong | mprpc-main/example/user.pb.cc:806-827 | The accumulated size, nested message and its length included, is the size of the value. |
| UserMessages.LoginResponse.MergeFrom | mprpc-main/example/user.pb.cc:836-852 | The nested result is merged when the other response has one, and allocated for it if need be. |
| Framing.IncompleteHeaderWaits | mprpc-main/src/rpcprovider.cc:136-147 | For which header sizes every incomplete header is waited for: exactly those whose sum with four fits 32 bits. |
| Framing.IncompleteArgsWait | mprpc-main/src/rpcprovider.cc:157-167 | Behind a parsed header an incomplete frame is waited for exactly when the end of its arguments fits 32 bits; otherwise the code reads on. |
| Framing.ShortFrameWraps | mprpc-main/src/rpcprovider.cc:157-167 | Ten bytes, in any registry, that are acted on although their frame is 4 GiB long. |
| Framing.InspectStable | mprpc-main/src/rpcprovider.cc:134-200 | Once the frame at the head is dispatched, rejected or wrapped, bytes behind it do not change that. |
| Framing.ChunkingIndependence | mprpc-main/src/rpcprovider.cc:134-214 | For every byte stream and every way to cut it up, the dispatched calls, the unread bytes and the verdict are those of the uncut stream. |
| Framing.RejectionAbsorbs | mprpc-main/src/rpcprovider.cc:151-200 | After a rejected frame nothing is ever dispatched again; all later bytes pile up unread. |
| Framing.BadCallBlocks | mprpc-main/src/rpcprovider.cc:150-200 | A frame whose names are not UTF-8, whose method is not registered or whose arguments do not parse is rejected, and every later byte of the connection piles up behind it. |
| Framing.FrameDispatched | mprpc-main/src/mprpcchannel.cc:38-56 | A client frame at the head of any queue is dispatched as the call it was made from and takes up its own length. |
| Framing.PartialFrameWaits | mprpc-main/src/rpcprovider.cc:136-163 | Every proper prefix of a client frame is waited on. |
| Framing.FrameDelivered | mprpc-main/src/rpcprovider.cc:134-214 | Exactly which calls come out of their frame with nothing left over. |
| Framing.AsciiCallDelivered | mprpc-main/src/rpcprovider.cc:134-214 | Every call with ASCII names to a registered method that takes its arguments arrives. |
| Framing.FrameExample | mprpc-main/src/mprpcchannel.cc:38-56 | A whole frame, byte by byte; the length is little-endian. |
| Framing.CompleteFramesDispatched | mprpc-main/src/rpcprovider.cc:134-214 | For a stream of client frames in any chunks: the calls whose frames are complete, in order, and a proper prefix of the next frame unread. |
| RpcProviders.MprpcChannel.CallMethod | mprpc-main/src/mprpcchannel.cc:25-56 | The bytes to send are the frame of the call; the call fails before the socket exactly when request or header cannot be serialized. |
| RpcProviders.RpcProvider.NotifyService | mprpc-main/src/rpcprovider.cc:75-92 | A service is added, and a name already taken keeps its first service. |
| RpcProviders.RpcProvider.NextFrame | mprpc-main/src/rpcprovider.cc:136-200 | One round of the loop decides the head frame as the byte queue does, without consuming anything. |
| RpcProviders.RpcProvider.OnMessage | mprpc-main/src/rpcprovider.cc:128-215 | The loop ends, has dispatched and consumed what draining the queue dispatches and consumes, and shuts down once on a rejection. |
| RpcProviders.RpcProvider.HandleRead | mymuduo-main/src/TcpConnection.cpp:88-109 | A read of some bytes joins the unread ones before the loop runs; the end of the stream closes and an error is logged, and neither runs the loop. |
| RpcProviders.Serve | mprpc-main/src/rpcprovider.cc:128-215 | Over the real buffer and any delivery by the kernel, a connection ends as if its whole stream had been drained at once. |
| RpcProviders.EndToEnd | mprpc-main/src/mprpcchannel.cc:25-56 | Calls framed by the client, cut anywhere and delivered in any pieces: the provider has dispatched exactly those whose frames are complete and holds a proper prefix of the next frame. |
| EventLoops.QueueExact | mymuduo-main/src/EventLoop.cpp:72-137 | In every interleaving, executed tasks, the rest of the batch and the pending ones are all pushes in push order: none lost, none run twice. |
| EventLoops.BatchOnlyShrinks | mymuduo-main/src/EventLoop.cpp:123-137 | While a batch runs, whatever is pushed, what was executed and what the batch still holds is what it held at entry. |
| EventLoops.StepProtected | mymuduo-main/src/EventLoop.cpp:33-82 | Each step of any thread keeps the wakeup invariant. |
| EventLoops.NoLostWakeup | mymuduo-main/src/EventLoop.cpp:33-137 | At poll, a pending task or a request to quit has its wakeup counted, or owed by a thread between push and wakeup. |
| EventLoops.NoWakeupLostInAnyRun | mymuduo-main/src/EventLoop.cpp:33-137 | The same in every run from a new loop in which the owner queues nothing before it enters the loop. |
| EventLoops.CoveredAtStart | mymuduo-main/src/EventLoop.cpp:33-82 | Exactly when no run from the start of the loop sleeps on a task. |
| EventLoops.SafeAfterExactly | mymuduo-main/src/EventLoop.cpp:33-82 | For every history before the loop is entered: no later run sleeps on a task if and only if the owner queued none or another thread queued one too. |
| EventLoops.OwnerTaskSleeps | mymuduo-main/src/EventLoop.cpp:72-82 | A task that the owner queues before the loop is slept on at the first poll. |
| EventLoops.PollTakesPending | mymuduo-main/src/EventLoop.cpp:33-49 | With all wakeups delivered, poll cannot block on pending tasks and the next iteration takes all of them. |
| EventLoops.CounterCounts | mymuduo-main/src/EventLoop.cpp:104-121 | In every run the counter is the number of wakeups since the last read, up to the eventfd's limit; a read empties it. |
| EventLoops.PushesRecorded | mymuduo-main/src/EventLoop.cpp:72-82 | What counts as pushed is what the threads pushed, in the order of their steps. |
| EventLoops.QuitStands | mymuduo-main/src/EventLoop.cpp:51-58 | Quit is requested exactly when some thread did so since the loop was entered. |
| EventLoops.QuitLeaves | mymuduo-main/src/EventLoop.cpp:33-49 | At poll, a request to quit with its wakeups delivered ends the loop after one more batch. |
| EventLoops.EventLoop.QueueInLoop | mymuduo-main/src/EventLoop.cpp:72-82 | The task joins the queue, with one wakeup for a foreign push or one from a running batch and none for one from a handler. |
| EventLoops.EventLoop.RunInLoop | mymuduo-main/src/EventLoop.cpp:60-70 | The owner runs the task now and wakes nobody; anyone else queues it with one wakeup. |
| EventLoops.EventLoop.DoPendingFunctions | mymuduo-main/src/EventLoop.cpp:123-137 | Runs exactly the tasks pending at entry and ends; what they queue, themselves included, waits with a wakeup; in all, the steps of the loop thread in the interleaved system. |
| EventLoops.PendingRuns | mymuduo-main/src/EventLoop.cpp:123-137 | What the interleaved steps of one undisturbed batch, pushes by its tasks included, do to the whole state. |
| EventLoops.QueueInLoopForeign | mymuduo-main/src/EventLoop.cpp:72-82 | A foreign push followed by its wakeup is what queueInLoop does to the queue and the counter. |
| Pollers.AgreementKept | mymuduo-main/src/EPollPoller.cpp:46-84 | No sequence of interest changes and removals makes index, table and kernel disagree, or issues a call that the kernel refuses. |
| Pollers.TeardownAbsent | mymuduo-main/src/TcpConnection.cpp:84-85 | Disabling all and removing ends as a fresh channel, from any state and however often. |
| Pollers.DisableAllAlone | mymuduo-main/include/mymuduo/Channel.h:32 | Disabling all alone unregisters exactly the channels that were registered. |
| Pollers.WriteInterest | mymuduo-main/include/mymuduo/Channel.h:28-43 | The write query follows the write mutators and ignores the read ones. |
| Pollers.InterestSet | mymuduo-main/src/Channel.cpp:6-8 | The bits that enabling asks for. |
| Pollers.InterestCleared | mymuduo-main/include/mymuduo/Channel.h:28-32 | The bits that disabling takes away, and that all others stay. |
| Pollers.KernelFollows | mymuduo-main/src/EPollPoller.cpp:46-72 | After any interest change the kernel watches for exactly what the channel asks for. |
| Pollers.InterestMeansCallback | mymuduo-main/src/Channel.cpp:53-74 | A report that meets the read or write interest is due to run the read or write callback. |
| Pollers.CallbacksDue | mymuduo-main/src/Channel.cpp:53-74 | Which bits of a report are due to run which callback; input keeps a hang-up from closing. |
| Pollers.Channel.HandleEvent | mymuduo-main/src/Channel.cpp:19-74 | Input reads, room to write writes, an error is handled, a hang-up without input closes; exactly the due callbacks that were set run, each once, close before error before read before write; none when the tied owner is gone. |
| Pollers.EPollPoller.EpollCtl | mymuduo-main/src/EPollPoller.cpp:96-111 | One descriptor's entry changes, or the call is refused; all other entries stay. |
| Pollers.EPollPoller.UpdateChannel | mymuduo-main/src/EPollPoller.cpp:46-72 | One channel moves as the registration machine says, all others stay registered as they were. |
| Pollers.EPollPoller.RemoveChannel | mymuduo-main/src/EPollPoller.cpp:74-84 | The same for a removal. |
| Pollers.EPollPoller.Perform | mymuduo-main/include/mymuduo/Channel.h:28-35 | Any interest change or removal by one of many channels keeps all of them in agreement with the kernel. |
| Pollers.EPollPoller.FillActiveChannels | mymuduo-main/src/EPollPoller.cpp:86-94 | Every reported descriptor yields its own registered channel with the reported events. |
| Connections.TcpConnection.ConnectEstablished | mymuduo-main/src/TcpConnection.cpp:67-75 | Connected with read interest, then whatever the callback does, as the value of the connection says. |
| Connections.TcpConnection.ConnectDestroyed | mymuduo-main/src/TcpConnection.cpp:77-86 | Ends unregistered everywhere, also when repeated; stream, buffer and history stay. |
| Connections.TcpConnection.SendInLoop | mymuduo-main/src/TcpConnection.cpp:168-211 | Writes at once or buffers, sets write interest and calls back as the value of the connection says, however deep the callback re-enters. |
| Connections.TcpConnection.HandleWrite | mymuduo-main/src/TcpConnection.cpp:111-138 | Moves bytes from buffer to socket; an emptied buffer ends write interest, calls back and issues a half close that was asked for. |
| Connections.TcpConnection.ShutdownHere | mymuduo-main/src/TcpConnection.cpp:57-65 | An open connection stops accepting sends; the half close is issued at once only without write interest. |
| Connections.TcpConnection.ShutdownInLoop | mymuduo-main/src/TcpConnection.cpp:213-220 | Half close without write interest, at most one first time. |
| Connections.TcpConnection.HandleClose | mymuduo-main/src/TcpConnection.cpp:140-153 | Disconnected afterwards, whatever the callbacks try to send. |
| Connections.TcpConnection.TestState | mymuduo-main/src/TcpConnection.cpp:42 | A send on another thread goes on exactly when it finds the connection open. |
| Connections.TcpConnection.PushTask | mymuduo-main/src/TcpConnection.cpp:50-52 | Its message is queued whatever has become of the connection since the test. |
| Connections.TcpConnection.RunQueued | mymuduo-main/src/EventLoop.cpp:132-135 | The oldest task of the batch runs: a send with its own message, or the destruction. |
| Connections.Replay | mymuduo-main/src/TcpConnection.cpp:33-220 | A real connection, with its buffer and its channel, ends any run of events exactly as the pure run says, so that every result about runs holds of it. |
| Links.BegunCore | mymuduo-main/src/TcpConnection.cpp:168-211 | Starting a send keeps the bytes taken and buffered equal to the started messages, and write interest equal to a nonempty buffer. |
| Links.ActedSound | mymuduo-main/src/TcpConnection.cpp:57-65 | Whatever a callback sends or shuts down, re-entering to any depth, keeps the invariant and disturbs neither queue nor foreign order. |
| Links.FlushedSound | mymuduo-main/src/TcpConnection.cpp:111-138 | Flushing keeps the invariant, and a half close that was asked for is never forgotten. |
| Links.TaskRunSound | mymuduo-main/src/EventLoop.cpp:132-135 | Running a queued send or destruction keeps conservation and call order. |
| Links.EveryRunSound | mymuduo-main/src/TcpConnection.cpp:33-220 | In every run: conservation, write interest, half close, call order and queue order together. |
| LinkRuns.LossExactly | mymuduo-main/src/TcpConnection.cpp:178-203 | The stream is all started messages in order if and only if no nonempty one met EPIPE or ECONNRESET with nothing queued before it; otherwise exactly those are missing. |
| LinkRuns.SendLosesExactly | mymuduo-main/src/TcpConnection.cpp:178-210 | For one send, decided before it: its message follows in the stream unless it is written at once and meets a fault or SHUT_WR. |
| LinkRuns.FaultFreeConserves | mymuduo-main/src/TcpConnection.cpp:168-211 | While the peer causes neither EPIPE nor ECONNRESET, in callbacks at any depth included, no byte of any run is lost before the half close. |
| LinkRuns.LosingRun | mymuduo-main/src/TcpConnection.cpp:195-203 | A run that loses a whole message and leaves the connection open. |
| LinkRuns.HalfCloseFinal | mymuduo-main/src/TcpConnection.cpp:213-220 | In every run SHUT_WR comes once it was asked for and nothing is left to write, after everything that had started; every later nonempty send is lost. |
| LinkRuns.SilentAfterHalfClose | mymuduo-main/src/TcpConnection.cpp:218 | Whatever happens after SHUT_WR, the wire stays as it is. |
| LinkRuns.HalfCloseExactly | mymuduo-main/src/TcpConnection.cpp:57-65 | When SHUT_WR has been issued and nothing was lost so far: all that started is written, and the nonempty sends queued by other threads are all among it if and only if none is still in the queue. |
| LinkRuns.GracefulOnLoop | mymuduo-main/src/TcpConnection.cpp:57-65 | With sends and shutdowns on the loop thread only, every started message is written before SHUT_WR and nothing after it. |
| LinkRuns.HalfCloseOvertakes | mymuduo-main/src/TcpConnection.cpp:51-52 | A send queued by another thread before the shutdown that meets SHUT_WR and is lost, whatever the kernel had to offer. |
| LinkRuns.RunOnward | mymuduo-main/src/TcpConnection.cpp:140-153 | However a run goes on, the past stays, and a disconnected or destroyed connection remains so. |
| LinkRuns.OnlyCloseDisconnects | mymuduo-main/src/TcpConnection.cpp:140-143 | Without a close being handled a connection is never disconnected or destroyed. |
| LinkRuns.RemovedExactly | mymuduo-main/src/TcpServer.cpp:88-94 | The destruction has been queued exactly when a removal has run on the disconnected connection. |
| LinkRuns.TasksFindConnection | mymuduo-main/src/TcpConnection.cpp:51-52 | In every run a queued send that is about to run finds its connection undestroyed if and only if its push came before the destruction was queued. |
| LinkRuns.RemovalSafeExactly | mymuduo-main/src/TcpConnection.cpp:42-52 | At the moment the destruction is queued: no send will ever be queued behind it if and only if no thread is between its test of the state and its push. |
| LinkRuns.LateTask | mymuduo-main/src/TcpConnection.cpp:42-52 | A thread that stalls between test and push: its task is run on the destroyed connection. |
| LinkRuns.Contiguous | mymuduo-main/src/TcpConnection.cpp:168-211 | Every message that was not lost is one unbroken piece of the stream at its own offset. |
| LinkRuns.CrossThreadOrder | mymuduo-main/src/TcpConnection.cpp:39-55 | In every run two messages of one foreign thread that started and were not lost lie in the stream unbroken and in call order; while not disconnected, what has not started is still queued. |
| LinkSteps.FlushWrites | mymuduo-main/src/TcpConnection.cpp:111-119 | What the kernel takes on a writable event is on the wire, in order, and the rest is still at the front of the buffer. |
| LinkSteps.FlushEmpties | mymuduo-main/src/TcpConnection.cpp:120-131 | A flush that takes all ends write interest, calls back once, runs the callback, and half closes if that was asked for. |
| LinkSteps.WritableProgress | mymuduo-main/src/TcpConnection.cpp:111-138 | Over any writable events, whatever callbacks send: as much of the buffer as there was room for is on the wire. |
| LinkSteps.WritableDrains | mymuduo-main/src/TcpConnection.cpp:111-138 | Once there was room for all of it the whole buffer is on the wire; if no callback sends, write interest is off and an asked half close is issued. |
| LinkSteps.SendAtOnce | mymuduo-main/src/TcpConnection.cpp:178-210 | With nothing queued before it: what a send writes, buffers, loses, and when it calls back, for each answer of the kernel. |
| LinkSteps.SendBehind | mymuduo-main/src/TcpConnection.cpp:178-210 | Behind other bytes a message is buffered, and nothing else happens. |
| LinkSteps.OpenActs | mymuduo-main/src/TcpConnection.cpp:57-65 | On its loop thread an open connection sends every message and shuts down when told, at once if nothing is buffered. |
| LinkSteps.Closes | mymuduo-main/src/TcpConnection.cpp:140-146 | A close changes the state alone, and on a closed connection no send starts. |
| LinkSteps.ForeignQueues | mymuduo-main/src/TcpConnection.cpp:39-55 | A send of another thread on an open connection ends at the end of the queue. |
| LinkSteps.TasksTaken | mymuduo-main/src/EventLoop.cpp:123-137 | The batch takes the whole queue over, and its oldest task is run and gone. |
| LinkSteps.PushedSendsStart | mymuduo-main/src/TcpConnection.cpp:51-52 | Once the loop has run the batch, every call pushed before has started, unless the connection was closed. |
| Servers.StepSound | mymuduo-main/src/TcpServer.cpp:63-94 | Every step of any loop keeps the life-cycle invariant of every connection. |
| Servers.EveryRunSound | mymuduo-main/src/TcpServer.cpp:63-94 | So it holds in every reachable state, for any number of loops. |
| Servers.CloseOk | mymuduo-main/src/TcpConnection.cpp:140-153 | Closing once more, from the base loop or another, keeps the invariant of the connection. |
| Servers.RemoveOk | mymuduo-main/src/TcpServer.cpp:88-94 | Leaving the list while a destruction is queued keeps it. |
| Servers.DestroyOk | mymuduo-main/src/TcpConnection.cpp:77-86 | Destroying, the first time or again, keeps it and leaves the connection unlisted and unregistered. |
| Servers.ActiveChannelsAlive | mymuduo-main/src/EventLoop.cpp:37-46 | Until the dispatch of an iteration ends, every channel that poll placed in it, visited or not, is established, registered in table and kernel, and owned. |
| Servers.ClosedForever | mymuduo-main/src/TcpConnection.cpp:140-153 | A disconnected connection is never anything else again. |
| Servers.DestroyedAbsentForever | mymuduo-main/src/TcpServer.cpp:88-94 | After any connectDestroyed and forever, the connection is in neither connections_, channels_ nor the kernel set. |
| Servers.QuiescentDestroyed | mymuduo-main/src/TcpServer.cpp:81-94 | When no loop has a task left, the destroyed connections are exactly the closed ones. |
| Servers.DestructionFollowsClose | mymuduo-main/src/TcpServer.cpp:81-94 | In every reachable server a destruction is queued only for a closed connection. |
| Servers.ClosedGetsDestroyed | mymuduo-main/src/TcpServer.cpp:81-94 | After a handled close, whatever the loops do: when they have run all their tasks the connection is destroyed and gone from list, table and kernel. |
| Servers.AcceptedGetsEstablished | mymuduo-main/src/TcpServer.cpp:63-79 | A new connection is listed under a name of its own, and once the tasks are run it is established, listed and listened to unless closed. |
| Chat.LoginKeepsPresence | chat-main/src/server/ChatService.cpp:112-117 | A first login makes the user online on exactly one server. |
| Chat.LogoutKeepsPresence | chat-main/src/server/ChatService.cpp:9-23 | Exactly which logouts keep the presence. |
| Chat.CloseForgetsConnection | chat-main/src/server/ChatService.cpp:211-233 | Nobody is left on a closed connection if and only if at most one user had logged in on it; whoever is left keeps the presence. |
| Chat.RowsPartition | chat-main/src/server/ChatService.cpp:124-129 | The offline rows handed over and the rows kept are the table, nothing doubled. |
| Chat.RowsInOrder | chat-main/src/server/ChatService.cpp:124-129 | The rows handed over and the rows kept each come in the order they were stored. |
| Chat.Cluster.Login | chat-main/src/server/ChatService.cpp:83-176 | Succeeds exactly for a known offline user with the right password, and then hands over all offline messages in order; otherwise nothing changes. |
| Chat.Cluster.LoginOut | chat-main/src/server/ChatService.cpp:9-23 | On any server and for any user: the entry, the state and the subscription go, nothing else does. |
| Chat.Cluster.ClientCloseException | chat-main/src/server/ChatService.cpp:211-233 | One user of the closed connection is dropped, whichever the map yields first; nobody is left on it if and only if it had at most one. |
| Chat.Cluster.Publish | chat-main/src/server/ChatService.cpp:249 | One delivery for every subscribing server. |
| Chat.Cluster.OneChat | chat-main/src/server/ChatService.cpp:236-257 | Where the copy goes: local connection, the subscribers' servers, or offline table. |
| Chat.Cluster.GroupChat | chat-main/src/server/ChatService.cpp:58-81 | Where the copy for each member goes, one member after the other. |
| Chat.Cluster.HandleRedisSubscribeMessage | chat-main/src/server/ChatService.cpp:259-277 | The delivered message goes to the mapped connection, or to the table when the user has left. |
| Chat.Replay | chat-main/src/server/ChatService.cpp:9-277 | Real servers that handle any commands go through worlds each of which follows from the one before by its command. |
| Chat.StepKeepsPresence | chat-main/src/server/ChatService.cpp:9-277 | Exactly which commands keep online equal to mapped and subscribed on exactly one server. |
| Chat.PresenceUntilStray | chat-main/src/server/ChatService.cpp:9-277 | Over any run from empty servers, presence holds throughout if and only if every logout of an online user comes to the server that maps the user. |
| Chat.TellConservesExactly | chat-main/src/server/ChatService.cpp:236-257 | Exactly when routing one copy neither loses nor doubles it. |
| Chat.DeliveriesWhenPresent | chat-main/src/server/ChatService.cpp:249 | With presence intact a publish makes one delivery, at the server that maps the user. |
| Chat.TellAllConserves | chat-main/src/server/ChatService.cpp:58-81 | A group message is one copy more for every member. |
| Chat.DeliverConserves | chat-main/src/server/ChatService.cpp:259-277 | A delivery moves its copy to the connection or the offline table and leaves the presence alone. |
| Chat.StepConserves | chat-main/src/server/ChatService.cpp:9-277 | With presence intact, a command adds exactly the copies it asks for to those sent, in flight, offline and handed over. |
| Chat.EveryRunConserves | chat-main/src/server/ChatService.cpp:9-277 | In every run with logouts by holders: online iff mapped and subscribed on exactly one server, and every copy asked for is in exactly one place. |
| Chat.StrayLogoutDoubles | chat-main/src/server/ChatService.cpp:9-23 | A logout on the wrong server, a new login, and a message that is delivered twice. |
| Chat.TwoLoginsOneClose | chat-main/src/server/ChatService.cpp:211-233 | Two users on one connection: its close leaves one of them online and mapped to it. |
| ChatRuns.SessionsAreMapped | chat-main/src/server/ChatService.cpp:9-233 | In every run with logouts by holders the servers' maps hold exactly the sessions that sign-ins, sign-outs and closes leave. |
| ChatRuns.OnlineExactly | chat-main/src/server/ChatService.cpp:83-117 | A user is online exactly while some server has a session of that user. |
| ChatRuns.KnownExactly | chat-main/src/server/ChatService.cpp:178-203 | A user is known exactly once registered. |
| ChatRuns.OnlyPasswordsLetIn | chat-main/src/server/ChatService.cpp:83-117 | In any run, a user comes online only by a sign-in of that user with the right password. |
| ChatRuns.TellRouted | chat-main/src/server/ChatService.cpp:236-257 | A message goes to the recipient's session on the sending server, else in flight to the server of the session, else to the table. |
| ChatRuns.GroupRouted | chat-main/src/server/ChatService.cpp:58-81 | A group message goes so for every member. |
| ChatRuns.DeliveryRouted | chat-main/src/server/ChatService.cpp:259-277 | A delivery goes to the session that is still there, or to the table. |
| ChatRuns.OthersSendNothing | chat-main/src/server/ChatService.cpp:9-233 | No other command sends to a connection or publishes. |
| ChatRuns.SignInHandsOver | chat-main/src/server/ChatService.cpp:124-129 | A sign-in that succeeds hands over the user's rows in order; one that does not changes nothing. |
| ChatRuns.SignInTakesExactly | chat-main/src/server/ChatService.cpp:116 | Exactly when a sign-in takes effect on its own connection. |
| ChatRuns.StaleConnection | chat-main/src/server/ChatService.cpp:116 | After a logout on the wrong server, messages go to the old connection of a user who signed in anew. |
| Logging.LockQueue.Push | mprpc-main/src/include/lockqueue.h:15-24 | A closed queue takes nothing; this is the push step of the threads. |
| Logging.LockQueue.Pop | mprpc-main/src/include/lockqueue.h:26-38 | The oldest line, or the empty line from a closed and empty queue; this is the pop step of the flush thread. |
| Logging.LockQueue.Close | mprpc-main/src/include/lockqueue.h:40-45 | Closing keeps the queued lines; this is the close step of the owner. |
| Logging.EveryRunSound | mprpc-main/src/logger.cc:29-65 | In every interleaving: file, line in hand and queue are the accepted lines in order, and the flush thread never sleeps on a line or on the close. |
| Logging.LinesConserved | mprpc-main/src/logger.cc:39-65 | Without empty lines: file, line in hand and queue are the accepted lines, at every moment of every run. |
| Logging.AcceptedExactly | mprpc-main/src/include/lockqueue.h:15-24 | In every run exactly the lines pushed before the close are accepted. |
| Logging.JoinedMeansWritten | mprpc-main/src/logger.cc:29-37 | After join the file holds the accepted lines exactly, if and only if none of them is empty. |
| Logging.EmptyLineStopsEarly | mprpc-main/src/logger.cc:43-51 | An empty line that meets the exit flag ends the thread with a line still queued. |
| Logging.FewPopsAfterClose | mprpc-main/src/logger.cc:39-51 | After the close at most one pop more than queued lines, in any interleaving. |
| Logging.FlushMoves | mprpc-main/src/logger.cc:39-65 | After the close the flush thread can always move on, and ends when its pops are used up. |

## Left out

- LinkRuns.GracefulOnLoop: for sends and shutdowns on the loop thread, because a queued send may start after `SHUT_WR`, as `LinkRuns.HalfCloseOvertakes` shows.
- Connections.TcpConnection.ShutdownHere: a shutdown on the loop thread; from another thread its unguarded test and write of the state would race with the close, an order that is excluded.
- Links.TaskRun: what a late send does to a connection object whose memory is gone; here it finds the disconnected state and returns.
- Connections.TcpConnection.HandleWrite: the `Channel` object is a registration value here, updated through the functions that `Pollers.EPollPoller` is proved against; the pointer between connection, channel and loop is not modelled.
- Links.Step: a destruction is queued only for a disconnected connection, which `Servers.DestructionFollowsClose` proves of the server; `~TcpServer`, which destroys open connections, is excluded.
- Wire.ReadLen: does not model the library's refusal of lengths within 16 bytes of 2 GiB.
- RpcHeaders.RpcHeader.InternalParse: accepts the same lengths.
- RpcHeaders.RpcHeader.ParseFromString: accepts the same lengths.
- UserMessages.ResultCode.InternalParse: accepts the same lengths.
- UserMessages.LoginResponse.InternalParse: accepts the same lengths.
- Framing.Inspect: what the code does once a 32-bit length sum has wrapped and been acted on; it reads past the bytes that are there, and the model stops with a verdict of its own.
- RpcProviders.RpcProvider.NextFrame: stops at the same wrapped sum.
- RpcProviders.RpcProvider.OnMessage: stops at the same wrapped sum.
- Pollers.EPollPoller.EpollCtl: a refused call is counted where the code logs it, as fatal for add and change; `Pollers.EPollPoller.Perform` proves that none is refused.
- Servers.EveryRunSound: `~TcpServer`, which destroys connections without the close path, and descriptor reuse after a connection object is freed.
- `EventLoop::loop`, `TcpServer`, `MprpcLogger` as objects with threads: they are transition systems, so in-place update and memory ordering below the level of mutexes and atomics are not captured; `quit()` before `loop()` is excluded.
- The order in which `MprpcLogger` initialises its thread and its exit flag.
- `LoginRequest`, `RegisterRequest`, `RegisterResponse`: the same generated pattern; they would add only easy members.
- Unknown fields are skipped but not stored; arenas, descriptors, reflection and swap.
- The client after framing: ZooKeeper lookup, sockets, the single `recv` of the response; the response and closure on the provider's side.
- `Acceptor`, `Socket`, `InetAddress`, thread pool and thread start, `epoll_wait` timing, list growth in the poller.
- JSON text of chat messages, friends and groups, database and Redis failures, a send on a chat connection that is closing (counted as sent).
- Log formatting, file names and timestamps.
