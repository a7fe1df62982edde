# Synergy: models and proofs

Dafny models of the parts of Synergy 1.4.18 that hold the most delicate state, with proofs about every
input, run or interleaving. `dafny verify dfyconfig.toml` checks the whole project.

| module | models |
|---|---|
| JobListLock, JobListFairness | the two-stage lock over the socket multiplexer's job list, as a step relation over any number of threads with the wait sets of the three condition variables, and its endless runs under fair scheduling |
| JobCursors, JobRegistry, SocketMultiplexer | the job list with its cursor nodes, the socket map, the poll array and one pass of the service thread, refined to a simple registry of sockets |
| EventQueue, Timers, PriorityQueue, Stopwatch | event ids and their recycling, the id buffer, timers as countdowns in a heap, and the stopwatch they run against, on exact reals |
| EventQueueStart | the start of the event loop among threads that add events, step by step |
| Utf8, Utf16 | the character codec, as written and in a corrected variant |
| Framing, Messages, MessageMeanings, Receiving, EmbeddedClient | the embedded client: reassembly of length-prefixed packets in a fixed buffer, all messages and what any series of them amounts to, replies in a second fixed buffer, and series of updates with idle receives, timeouts and failures |
| ClientStates, ClientOutcomes, ClientLifecycle | the client's connection: stream, timer, proxy, keep-alive alarm, suspend and resume, how connections begin and end, and the handlers and timers each registers |
| MouseMotion | delaying and merging mouse motion while more input waits |
| StreamBuffer | the chunked byte queue |
| Options, Octets | a value that may be missing; bytes |

Objects whose methods update fields are classes. Each method is proved against a function on values, and
the properties are proved about those functions: over all runs where the component is a state machine,
and in terms of the calls made and the bytes received rather than of the functions themselves.
Where the original reads a clock, calls the network or asks whether input waits, the answer is a
parameter, bounded by nothing but the contract. Bit masks and shifts are written as remainders, quotients
and products.

## Where the code does not do what is promised

The models follow the code. These differences are stated as theorems.

- The 4, 5 and 6 byte cases of the UTF-8 decoder read the second byte again in place of later ones. The
  validity test is still right (`Utf8.ValidIffEncoded`), but of the characters outside the BMP only those
  whose continuation bytes are all the same are read right (`Utf8.DecodeEncodeIff`, `Utf8.MisreadExample`).
- The UTF-16 decoder takes the high surrogate for its own partner, so no character outside the BMP
  survives (`Utf16.RoundTripIdentity`, `Utf16.SupplementaryLost`). A leading byte order mark is dropped.
- The documentation (`src/synergy-1.4.18-Source/src/lib/base/IEventQueue.h:128`) gives one-shot timers
  the count 1. They report 1 exactly when polled before a second duration has been counted
  (`Timers.CountIsOne`, `Timers.OneShotCountsFive`).
- The documentation (`src/synergy-1.4.18-Source/src/lib/base/Stopwatch.h:75-77`) has a triggered watch
  return zero on the next reading. It does so exactly if nothing had been counted when it was armed or it
  has been reset since (`Stopwatch.TriggerStartsFromZero`, `Stopwatch.ArmedLateExample`).
- The head offset of the stream buffer is 32 bits wide while peek can let the head grow without bound as
  long as it is never used up entirely; when the offset overflows, which can happen, old bytes come back
  (`StreamBuffer.StreamBuffer.Pop`, `StreamBuffer.OverflowHappens`).
- addEvent and the start of the loop test and change the ready flag and the pending events in separate
  steps: an event added meanwhile can overtake the pending ones or be left pending for good
  (`EventQueueStart.OrderKeptIff`, `EventQueueStart.OvertakingExample`, `EventQueueStart.LateAreStranded`,
  `EventQueueStart.AllReachTheBufferIff`).
- A batch that mixes relative and absolute motion can leave the cursor off by the motion that was
  overtaken (`MouseMotion.CompressionDrifts`, `MouseMotion.MixedBatchDrifts`).
- The client's destructor leaves the two drag and drop handlers registered
  (`ClientLifecycle.Client.Destroy`), and a second suspend event makes it forget that it was connected
  unless the user asks for a connection again (`ClientStates.SecondSuspendForgets`,
  `ClientStates.ResumeReconnects`).
- With drag and drop on, a chunk of a file to send that is announced after a disconnection fails the
  assertion in sendFileChunk that there is a proxy (`ClientStates.HandlersSuit`,
  `ClientStates.NeverFailsIff`, `ClientStates.ChunkAfterDisconnecting`).
- The documentation (`src/synergy-1.4.18-Source/src/lib/net/ISocketMultiplexerJob.h:43-46`) lets run()
  register and drop other sockets. The job list is locked while run() is called, so after such a call no
  thread acquires the list again (`JobListLock.NestedCallIsForGood`); without one the pass can always end
  with the unlock (`JobListLock.HolderCanUnlock`). The jobs of `SocketMultiplexer` make none.
- The embedded client promises to disconnect after two seconds of inactivity
  (`src/synergy-1.4.18-Source/src/micro/uSynergy.c:506`). The data that brings the hello does not restart
  that time, nor does a new connection, so it can disconnect right after being greeted
  (`Receiving.IdleTimeIff`, `Receiving.GreetedLate`, `Receiving.GreetedAgain`).
- List nodes of swept sockets stay in the list, which therefore grows without bound while no socket is
  registered (`SocketMultiplexer.SocketMultiplexer.PerformAll`, `JobRegistry.ChurnRegisters`).

## Assumptions

- Memory is enough, and counts stay below 2^32 where the original keeps them in 32 bits, except where a
  contract says otherwise (the stream buffer's size and offset, the embedded client's clock and lengths).
- The embedded client is the little-endian build and starts with an empty receive buffer; what it
  receives, over all its connections together, consists of frames with bodies of 4 to 4092 bytes, each
  known message at its documented length.
- push_heap, pop_heap and make_heap are written out as moving one element up or down; nothing depends on
  how they order equal elements.
- Relative motion adds up on an unbounded plane: a screen edge that stops the cursor can tell one large
  motion from several small ones.
- New streams, timers and list nodes get addresses that are not in use. Events for streams and timers
  that are gone may be delivered at any time, and so may events of any kind for the present ones.
- Sockets, threads, mutexes and the clock behind ARCH are not part of this model.

## Model

| member | source | states |
|---|---|---|
| JobListLock.InvStep | src/synergy-1.4.18-Source/src/lib/net/SocketMultiplexer.cpp:292-350 | Every step of every thread, waiting, waking (also spuriously) and signalling included, keeps: each owner pointer names exactly the thread that holds that stage, and nobody sleeps on a condition that has become true |
| JobListLock.MutualExclusion | src/synergy-1.4.18-Source/src/lib/net/SocketMultiplexer.cpp:307-350 | In every interleaving of any number of threads at most one thread is between lockJobList and unlockJobList, and the assertions in lockJobList and unlockJobList hold |
| JobListLock.NoLostWakeup | src/synergy-1.4.18-Source/src/lib/net/SocketMultiplexer.cpp:292-350 | At most one thread ever waits on m_jobListLock, so signal is as good as broadcast; a sleeper still has its flag set, and the service thread only sleeps while there are no jobs |
| JobListLock.ReadyIffRegistered | src/synergy-1.4.18-Source/src/lib/net/SocketMultiplexer.cpp:330-350 | In every interleaving, whenever the list is free the flag that the service thread waits for is set if and only if some socket is registered |
| JobListLock.ServiceWaitsForJobs | src/synergy-1.4.18-Source/src/lib/net/SocketMultiplexer.cpp:154-160 | The service thread goes for the list exactly when it looks at that flag and finds it set, and sleeps if it finds it not set |
| JobListLock.TestsOnceOrSleeps | src/synergy-1.4.18-Source/src/lib/net/SocketMultiplexer.cpp:292-328 | No thread spins: one that tests a flag gets on or goes to sleep, and stays asleep until a signal, a broadcast or a spurious wakeup |
| JobListLock.NoOvertaking | src/synergy-1.4.18-Source/src/lib/net/SocketMultiplexer.cpp:292-328 | Once a thread has returned from lockJobListLock, the next thread to acquire the job list is that thread |
| JobListLock.CanAcquire | src/synergy-1.4.18-Source/src/lib/net/SocketMultiplexer.cpp:292-350 | No deadlock: from every reachable state a thread inside lockJobListLock or lockJobList has a continuation, without spurious wakeups, in which it acquires the list |
| JobListFairness.ClaimantGetsList | src/synergy-1.4.18-Source/src/lib/net/SocketMultiplexer.cpp:292-350 | In every endless run under fair scheduling, in which whoever has the list gives it back, a thread that has returned from lockJobListLock gets the list |
| JobListLock.NestedCallIsForGood | src/synergy-1.4.18-Source/src/lib/net/SocketMultiplexer.cpp:207-240 | If a job that is run calls addSocket or removeSocket, the list stays locked and no thread ever acquires it again, in any continuation |
| JobListLock.HolderCanUnlock | src/synergy-1.4.18-Source/src/lib/net/SocketMultiplexer.cpp:330-350 | Without such a call the holder can unlock at once whatever the other threads do, and the list is then free |
| JobCursors.NextKeepsOrder | src/synergy-1.4.18-Source/src/lib/net/SocketMultiplexer.cpp:266-283 | One nextCursor returns the first real job behind the cursor, moves only the cursor, and leaves fewer nodes behind it |
| JobCursors.WalkVisitsJobs | src/synergy-1.4.18-Source/src/lib/net/SocketMultiplexer.cpp:266-283 | A walk visits every job node behind the cursor exactly once in list order, ignores other cursors, and ends |
| JobCursors.CursorWalk | src/synergy-1.4.18-Source/src/lib/net/SocketMultiplexer.cpp:259-290 | newCursor, nextCursor to the end and deleteCursor visit all jobs in order and give the list back unchanged |
| JobRegistry.HistoryOneEach | src/synergy-1.4.18-Source/src/lib/net/SocketMultiplexer.cpp:76-142 | After any history of adds, removes, served passes and sweeps there is at most one entry per socket |
| JobRegistry.PutEffect | src/synergy-1.4.18-Source/src/lib/net/SocketMultiplexer.cpp:91-108 | Adding a socket gives that socket the new job, changes the job of no other socket, and puts it last exactly if it was not registered |
| JobRegistry.DropEffect | src/synergy-1.4.18-Source/src/lib/net/SocketMultiplexer.cpp:128-138 | Removing a socket leaves it without a job and changes the job of no other socket |
| JobRegistry.ServeEffect | src/synergy-1.4.18-Source/src/lib/net/SocketMultiplexer.cpp:207-240 | A served pass keeps the sockets and their order, and gives none a job that had none |
| JobRegistry.PurgeEffect | src/synergy-1.4.18-Source/src/lib/net/SocketMultiplexer.cpp:243-252 | The sweep removes exactly the sockets without a job, and changes the job of no other socket |
| JobRegistry.ChurnRegisters | src/synergy-1.4.18-Source/src/lib/net/SocketMultiplexer.cpp:76-142 | A socket added, removed and swept n times has been registered anew n times and in the end is not registered |
| JobRegistry.ResultReachesItsJob | src/synergy-1.4.18-Source/src/lib/net/SocketMultiplexer.cpp:179-240 | At one and the same index a socket's descriptor is polled, for input if its job is readable and for output if it is writable, that job is run with the read, write and error bits found there, and what it returns becomes the job of that socket |
| JobRegistry.PassEffect | src/synergy-1.4.18-Source/src/lib/net/SocketMultiplexer.cpp:162-255 | After a pass a socket is registered if and only if it has a job, and that is what its own run returned, or the one it had if nothing was run |
| SocketMultiplexer.SocketMultiplexer.AddSocket | src/synergy-1.4.18-Source/src/lib/net/SocketMultiplexer.cpp:91-108 | On list nodes, map and update flag, adding refines the simple registry and keeps every invariant; a new node goes to the end of the list exactly if the socket is not in the map |
| SocketMultiplexer.SocketMultiplexer.RemoveSocket | src/synergy-1.4.18-Source/src/lib/net/SocketMultiplexer.cpp:128-138 | Likewise for removing: the node stays and becomes empty |
| SocketMultiplexer.SocketMultiplexer.NewCursor | src/synergy-1.4.18-Source/src/lib/net/SocketMultiplexer.cpp:259-264 | A new cursor is put at the front of the list and nothing else changes |
| SocketMultiplexer.SocketMultiplexer.NextCursor | src/synergy-1.4.18-Source/src/lib/net/SocketMultiplexer.cpp:266-283 | The splice in place does what Next says: returns the next job and moves the cursor just past it |
| SocketMultiplexer.SocketMultiplexer.DeleteCursor | src/synergy-1.4.18-Source/src/lib/net/SocketMultiplexer.cpp:285-290 | Takes the cursor out and leaves the other nodes as they were |
| SocketMultiplexer.SocketMultiplexer.CollectPollEntries | src/synergy-1.4.18-Source/src/lib/net/SocketMultiplexer.cpp:166-190 | When the poll starts, pfds is exactly the in-order projection of the live jobs in the list; what an entry asks for is in JobRegistry.ResultReachesItsJob |
| SocketMultiplexer.SocketMultiplexer.RunJobs | src/synergy-1.4.18-Source/src/lib/net/SocketMultiplexer.cpp:207-240 | Each live job is run with its own poll result; a different return value replaces the job in place and sets the update flag |
| SocketMultiplexer.SocketMultiplexer.Sweep | src/synergy-1.4.18-Source/src/lib/net/SocketMultiplexer.cpp:242-252 | Exactly the sockets whose job is gone leave the map; the update flag is set if and only if it was set before or some socket left |
| SocketMultiplexer.SocketMultiplexer.ServicePass | src/synergy-1.4.18-Source/src/lib/net/SocketMultiplexer.cpp:162-255 | One pass of the service thread, for any poll status, refines serve-then-purge on the registry and keeps every live node owned by exactly one socket |
| SocketMultiplexer.SocketMultiplexer.PerformAll | src/synergy-1.4.18-Source/src/lib/net/SocketMultiplexer.cpp:76-255 | Any series of calls is a history of the registry, and the list has one node more for every time a socket was registered anew: none is ever taken out |
| SocketMultiplexer.EntriesPolls | src/synergy-1.4.18-Source/src/lib/net/SocketMultiplexer.cpp:166-190 | The poll entries of the list are those of the registry it stands for |
| SocketMultiplexer.EntriesRuns | src/synergy-1.4.18-Source/src/lib/net/SocketMultiplexer.cpp:207-240 | The calls made while walking the list are those of the registry |
| SocketMultiplexer.EntriesServed | src/synergy-1.4.18-Source/src/lib/net/SocketMultiplexer.cpp:207-240 | What the walk leaves in the list is the served registry |
| Framing.FrameParses | src/synergy-1.4.18-Source/src/micro/uSynergy.c:518-527 | A frame in front of a stream is read back as its body, and the rest of the stream follows it |
| Framing.Cut | src/synergy-1.4.18-Source/src/micro/uSynergy.c:514-528 | Reading a concatenation is reading the first part and then what it left over together with the second |
| Framing.PrefixParses | src/synergy-1.4.18-Source/src/micro/uSynergy.c:514-528 | Of any prefix of encoded frames, the frames read are exactly the complete ones in order, and the rest is the proper beginning of the next |
| Framing.PrefixLegal | src/synergy-1.4.18-Source/src/micro/uSynergy.c:514-528 | Any prefix of frames with bodies of 4 to 4092 bytes keeps the buffer's first bytes such that a stale length is never large |
| Receiving.ScriptIsRun | src/synergy-1.4.18-Source/src/micro/uSynergy.c:476-558 | Any series of updates, with idle receives, timeouts, failed receives and new connections in it, is a series of actions, and the messages taken in it are exactly the frames of the bytes received so far |
| Receiving.ActionsUpdate | src/synergy-1.4.18-Source/src/micro/uSynergy.c:476-558 | One update: the pause, the timeout, the failure or the messages it completes, in that order |
| Receiving.ConnectionLost | src/synergy-1.4.18-Source/src/micro/uSynergy.c:476-512 | A failed receive, and an idle one after the timeout, end the connection and reset its four fields, with a pause of a second or of half a second; pending bytes and the time noted stay |
| Receiving.StreamProcessed | src/synergy-1.4.18-Source/src/micro/uSynergy.c:476-558 | For a stream of acceptable frames received in any pieces, whatever comes between, the messages processed are exactly the complete frames so far, in order, and the pending bytes are exactly the incomplete suffix |
| Receiving.SplitDoesNotMatter | src/synergy-1.4.18-Source/src/micro/uSynergy.c:476-558 | However the bytes are split into receives and however many idle ones there are, without timeout or failure everything sent and called back is that of receiving them at once |
| Receiving.QuietScript | src/synergy-1.4.18-Source/src/micro/uSynergy.c:206-454 | Idle receives change nothing but the pauses themselves |
| Receiving.ProcessUnpaused | src/synergy-1.4.18-Source/src/micro/uSynergy.c:206-454 | A message has the same effect whether or not pauses came before it |
| Receiving.IdleTimeIff | src/synergy-1.4.18-Source/src/micro/uSynergy.c:500-512 | After any series of calls that ends in a greeted connection, the idle time counts from the last data if and only if a hello had been received before that data on the same connection, or the clock then read the same as when time was last noted |
| Receiving.GreetedLate | src/synergy-1.4.18-Source/src/micro/uSynergy.c:500-512 | A connection greeted more than two seconds after time was last noted is closed by an idle receive right after the greeting |
| Receiving.GreetedAgain | src/synergy-1.4.18-Source/src/micro/uSynergy.c:462-469 | So is one made again five seconds after the last data of the connection before |
| Receiving.WireIsFrames | src/synergy-1.4.18-Source/src/micro/uSynergy.c:131-149 | In any series of updates and clipboard sends, the bytes that go to the server, read back, are exactly the payloads of what was sent, in order |
| EmbeddedClient.EatOne | src/synergy-1.4.18-Source/src/micro/uSynergy.c:518-527 | Processing the complete message in front keeps: what is processed and what is pending together are the whole stream |
| EmbeddedClient.EmbeddedClient.EatPackets | src/synergy-1.4.18-Source/src/micro/uSynergy.c:514-528 | The packet loop on the raw buffer, stale tail bytes included, processes exactly the complete frames and keeps the rest at the front, with room for at least one more byte |
| EmbeddedClient.EmbeddedClient.HeaderInFront | src/synergy-1.4.18-Source/src/micro/uSynergy.c:517-520 | The length word, complete or stale, stops the loop exactly when no complete message is in front and is never too long for the buffer |
| EmbeddedClient.EmbeddedClient.UpdateContext | src/synergy-1.4.18-Source/src/micro/uSynergy.c:476-558 | A receive of any kind, its timeout handling and the packet loop do what Updated says of device, pending bytes and time; the oversize branch is never taken |
| EmbeddedClient.EmbeddedClient.Update | src/synergy-1.4.18-Source/src/micro/uSynergy.c:583-596 | One step of the runs in Receiving: a disconnected client only tries to connect, a connected one updates |
| EmbeddedClient.EmbeddedClient.ProcessMessage | src/synergy-1.4.18-Source/src/micro/uSynergy.c:206-454 | Dispatch on the message code, the callbacks, the state changes and the replies are the function Process of the message body alone; what Process does is in the rows of MessageMeanings |
| EmbeddedClient.EmbeddedClient.ReadFormats | src/synergy-1.4.18-Source/src/micro/uSynergy.c:398-440 | The clipboard handler's walk over the formats makes one callback per format, with that format's bytes, in order |
| EmbeddedClient.EmbeddedClient.SendReply | src/synergy-1.4.18-Source/src/micro/uSynergy.c:131-149 | One frame is sent, its prefix is the body length, and the reply cursor is back at offset 4 |
| EmbeddedClient.EmbeddedClient.AddString | src/synergy-1.4.18-Source/src/micro/uSynergy.c:81-86 | Appends to the reply and leaves what was there |
| EmbeddedClient.EmbeddedClient.AddUInt8 | src/synergy-1.4.18-Source/src/micro/uSynergy.c:93-96 | Appends one byte |
| EmbeddedClient.EmbeddedClient.AddUInt16 | src/synergy-1.4.18-Source/src/micro/uSynergy.c:103-108 | Appends two bytes, most significant first |
| EmbeddedClient.EmbeddedClient.AddUInt32 | src/synergy-1.4.18-Source/src/micro/uSynergy.c:116-124 | Appends four bytes, most significant first |
| EmbeddedClient.EmbeddedClient.SetDisconnected | src/synergy-1.4.18-Source/src/micro/uSynergy.c:462-469 | Resets the four connection fields and the reply cursor, and neither the time nor the received bytes |
| EmbeddedClient.EmbeddedClient.SendClipboard | src/synergy-1.4.18-Source/src/micro/uSynergy.c:603-636 | One step of the runs in Receiving: text that fits is sent as one clipboard frame and the cursor is back |
| Messages.AllRepliesFramed | src/synergy-1.4.18-Source/src/micro/uSynergy.c:206-454 | Every send made by any sequence of messages is one frame whose prefix is its body length |
| Messages.WireParses | src/synergy-1.4.18-Source/src/micro/uSynergy.c:131-149 | The frames sent one after the other parse as exactly their payloads with nothing left over |
| Messages.ProcessKeepsValid | src/synergy-1.4.18-Source/src/micro/uSynergy.c:206-454 | No message can take joystick tables or the sequence number out of range |
| Messages.ClipboardRoundTrip | src/synergy-1.4.18-Source/src/micro/uSynergy.c:398-440 | A clipboard frame built from any text of at most 995 bytes, parsed by the handler, gives exactly one callback with that text |
| Messages.ClipboardHeader | src/synergy-1.4.18-Source/src/micro/uSynergy.c:603-636 | The frame carries clipboard 0, the number of the last enter message and the length of what follows |
| MessageMeanings.PointerTold | src/synergy-1.4.18-Source/src/micro/uSynergy.c:288-330 | After any messages each button is as the last DMDN or DMUP about it said (3 is right, 2 middle, any other left), the pointer is where the last DMMV put it, and the wheel is the sum of all turns in 16 bits |
| MessageMeanings.FocusTold | src/synergy-1.4.18-Source/src/micro/uSynergy.c:265-383 | After any messages the screen has the input if and only if the last of CINN and COUT was CINN, the sequence number is that of the last CINN, and each joystick is as the last DGBT and DGST about it said |
| MessageMeanings.MouseReported | src/synergy-1.4.18-Source/src/micro/uSynergy.c:288-330 | Each button, motion and wheel message makes one callback with the whole state of the pointer after it and one no-op reply |
| MessageMeanings.KeyReported | src/synergy-1.4.18-Source/src/micro/uSynergy.c:331-360 | Each key message makes one callback with its own key and modifiers, down and repeat as its name says, and one no-op reply |
| MessageMeanings.ScreenReported | src/synergy-1.4.18-Source/src/micro/uSynergy.c:265-287 | Entering and leaving make one callback each and one no-op reply |
| MessageMeanings.JoystickReported | src/synergy-1.4.18-Source/src/micro/uSynergy.c:361-384 | A joystick message makes one callback with that joystick's state after it, none for a joystick that there is not, and one no-op reply |
| MessageMeanings.QueryAnswered | src/synergy-1.4.18-Source/src/micro/uSynergy.c:236-252 | A query is answered with 18 bytes: DINF, the width at 8, the height at 10, and zero everywhere else |
| MessageMeanings.HelloAnswered | src/synergy-1.4.18-Source/src/micro/uSynergy.c:208-235 | A hello is answered with the version and the name; whether that could be sent decides whether the connection is greeted or given up |
| MessageMeanings.OthersAnswered | src/synergy-1.4.18-Source/src/micro/uSynergy.c:253-264 | CALV is sent back before the no-op, DSOP gets the no-op alone, CIAK and CROP do nothing, and any unknown name is only noted |
| MessageMeanings.FormatsPassedOn | src/synergy-1.4.18-Source/src/micro/uSynergy.c:398-440 | Clipboard formats written behind any head, however many, are passed on once each, in order, with their own bytes |
| MessageMeanings.ClipboardReported | src/synergy-1.4.18-Source/src/micro/uSynergy.c:398-440 | A clipboard message makes one callback for each format it carries, if there is a callback, and one no-op reply, and changes nothing else |
| Utf8.ValidIffEncoded | src/synergy-1.4.18-Source/src/lib/base/Unicode.cpp:100-111 | The decoder as written accepts exactly the concatenations of encodings of characters below 2^31 other than surrogates, U+FFFE and U+FFFF, although it misreads the longer forms (section 3 of RFC 3629, section 2 of RFC 2279) |
| Utf8.VariantsAgree | src/synergy-1.4.18-Source/src/lib/base/Unicode.cpp:610-655 | The repeated data[1] changes neither which bytes are accepted, nor how many are taken, nor any character below 0x10000 |
| Utf8.SameOverlong | src/synergy-1.4.18-Source/src/lib/base/Unicode.cpp:706-717 | The overlong test gives the same answer with the repeated second byte |
| Utf8.DecodeEncode | src/synergy-1.4.18-Source/src/lib/base/Unicode.cpp:556-784 | Decoding an encoded character, whatever follows it, gives it back and takes exactly its bytes |
| Utf8.EncodeDecode | src/synergy-1.4.18-Source/src/lib/base/Unicode.cpp:556-784 | What the decoder accepts is the encoding of the character it returns, so no other bytes decode to it |
| Utf8.ValidIsEncoded | src/synergy-1.4.18-Source/src/lib/base/Unicode.cpp:100-111 | A valid string is the concatenation of the encodings of its characters |
| Utf8.EncodedIsValid | src/synergy-1.4.18-Source/src/lib/base/Unicode.cpp:100-111 | Encoded characters form a valid string that decodes to them |
| Utf8.DecodeEncodeIff | src/synergy-1.4.18-Source/src/lib/base/Unicode.cpp:610-655 | As written the decoder takes the right number of bytes of any encoded character, and returns that character if and only if it has at most three bytes or all its continuation bytes are the same |
| Utf8.MisreadExample | src/synergy-1.4.18-Source/src/lib/base/Unicode.cpp:610-618 | U+10000, encoded as F0 90 80 80, is read as U+10410 |
| Utf8.EncodedExamples | src/synergy-1.4.18-Source/src/lib/base/Unicode.cpp:731-784 | One character of each length, by the tables in section 3 of RFC 3629 and section 2 of RFC 2279 |
| Utf8.ResumesAtNextCharacter | src/synergy-1.4.18-Source/src/lib/base/Unicode.cpp:657-703 | When a form stops early, either variant resumes at the first byte that is not a continuation and decodes a character there as if it came first, if and only if the announced length fits the input; otherwise everything is skipped |
| Utf8.StrayBytes | src/synergy-1.4.18-Source/src/lib/base/Unicode.cpp:556-608 | Bytes that cannot start a character are skipped one by one, so a valid character behind any number of them is found |
| Utf8.AppendedReadsBack | src/synergy-1.4.18-Source/src/lib/base/Unicode.cpp:731-784 | What is appended is read back as the character, as U+FFFD for surrogates and from 2^31 on, and as malformed if and only if it is U+FFFE or U+FFFF |
| Utf8.FromUTF8 | src/synergy-1.4.18-Source/src/lib/base/Unicode.cpp:556-728 | The decoding step on a position and a count consumes between one and all of the bytes left and does what the function says |
| Utf8.IsUTF8 | src/synergy-1.4.18-Source/src/lib/base/Unicode.cpp:100-111 | The validity loop terminates and decides validity |
| Utf8.ToUTF8 | src/synergy-1.4.18-Source/src/lib/base/Unicode.cpp:731-784 | Appends the encoding, or that of the replacement character with an error |
| Utf16.RoundTripIdentity | src/synergy-1.4.18-Source/src/lib/base/Unicode.cpp:166-202 | UTF-8 to UTF-16 and back is the identity, without error, on exactly the valid strings with no character at or above the limit and no leading byte order mark; the limit is U+10000 as written and U+110000 in the corrected variant (sections 2.1 and 2.2 of RFC 2781) |
| Utf16.RoundTripIs | src/synergy-1.4.18-Source/src/lib/base/Unicode.cpp:453-513 | What any byte string becomes: characters below the limit are kept, every other one is replaced and reported, a leading mark is dropped |
| Utf16.CharThrough | src/synergy-1.4.18-Source/src/lib/base/Unicode.cpp:453-513 | One character on its way through both converters, with anything behind it |
| Utf16.SupplementaryLost | src/synergy-1.4.18-Source/src/lib/base/Unicode.cpp:492-493 | Every character from U+10000 to U+10FFFF is lost as written, because the low surrogate is read from the place of the high one, and kept in the corrected variant |
| Utf16.CorrectedIffUnits | src/synergy-1.4.18-Source/src/lib/base/Unicode.cpp:482-510 | The corrected variant reports no error on exactly the word sequences made of the one- and two-word forms of characters below 0x110000 other than surrogates (section 2.1 of RFC 2781) |
| Utf16.SurrogatesAreErrors | src/synergy-1.4.18-Source/src/lib/base/Unicode.cpp:482-510 | As written an error is reported if and only if any word read is a surrogate, paired or not |
| Utf16.MarksTellOrder | src/synergy-1.4.18-Source/src/lib/base/Unicode.cpp:453-480 | Words behind a byte order mark in either byte order, and words in native order without one, are read as the same words (section 4.3 of RFC 2781) |
| Utf16.UnitsExample | src/synergy-1.4.18-Source/src/lib/base/Unicode.cpp:453-513 | U+12345 in words and in bytes (section 5 of RFC 2781) |
| Utf16.UTF8ToUTF16 | src/synergy-1.4.18-Source/src/lib/base/Unicode.cpp:166-202 | The conversion loop terminates and computes the words |
| Utf16.UTF16ToUTF8 | src/synergy-1.4.18-Source/src/lib/base/Unicode.cpp:277-286 | The conversion, with byte order marks of either order |
| Utf16.ConvertWords | src/synergy-1.4.18-Source/src/lib/base/Unicode.cpp:482-510 | The loop over the words, which always reads the high surrogate as the low one |
| StreamBuffer.StreamBuffer.Write | src/synergy-1.4.18-Source/src/lib/io/StreamBuffer.cpp:95-140 | Appends; the 32-bit size stays right if and only if fewer than 2^32 bytes are queued |
| StreamBuffer.StreamBuffer.Peek | src/synergy-1.4.18-Source/src/lib/io/StreamBuffer.cpp:39-63 | Shows exactly the next n bytes and changes nothing abstractly; NULL for none |
| StreamBuffer.StreamBuffer.Pop | src/synergy-1.4.18-Source/src/lib/io/StreamBuffer.cpp:65-93 | Drops min(n, size) bytes and stays sound if and only if the 32-bit head offset does not overflow |
| StreamBuffer.MergeKeeps | src/synergy-1.4.18-Source/src/lib/io/StreamBuffer.cpp:57-60 | Merging the second chunk into the head changes no queued byte and keeps the chunk sizes |
| StreamBuffer.DropHead | src/synergy-1.4.18-Source/src/lib/io/StreamBuffer.cpp:82-87 | Discarding the head chunk discards exactly what was left of it |
| StreamBuffer.WriteStep | src/synergy-1.4.18-Source/src/lib/io/StreamBuffer.cpp:122-139 | Each turn of the write loop moves bytes from the data to the list and keeps only the last chunk short |
| StreamBuffer.OffsetMoves | src/synergy-1.4.18-Source/src/lib/io/StreamBuffer.cpp:89-92 | Moving the offset inside the head drops bytes and stays sound if and only if it does not overflow; an overflow brings 2^32 bytes back |
| StreamBuffer.OverflowHappens | src/synergy-1.4.18-Source/src/lib/io/StreamBuffer.cpp:65-93 | A run of writes, peeks and pops on a new buffer after which the offset overflows and 4 GiB of bytes already taken are back |
| StreamBuffer.FewChunks | src/synergy-1.4.18-Source/src/lib/io/StreamBuffer.cpp:109-139 | (chunks - 2) * 4096 is at most the number of bytes queued |
| Stopwatch.ShowsCountedTime | src/synergy-1.4.18-Source/src/lib/base/Stopwatch.cpp:41-125 | After any calls the stopwatch shows the time that passed while it was running since its last reset |
| Stopwatch.CountedBounds | src/synergy-1.4.18-Source/src/lib/base/Stopwatch.cpp:89-125 | On a clock that does not go back it never shows a negative time, never more than its life, and never less than before unless reset |
| Stopwatch.TriggerStartsFromZero | src/synergy-1.4.18-Source/src/lib/base/Stopwatch.cpp:82-95 | After any calls an armed watch returns zero and starts from zero if and only if nothing had been counted when it was armed or it has been reset since |
| Stopwatch.ArmedLateExample | src/synergy-1.4.18-Source/src/lib/base/Stopwatch.cpp:82-95 | A watch armed after five seconds returns five and goes on from there |
| Stopwatch.Stopwatch.Reset | src/synergy-1.4.18-Source/src/lib/base/Stopwatch.cpp:41-55 | Returns the time shown and starts again, or clears a stopped watch |
| Stopwatch.Stopwatch.Stop | src/synergy-1.4.18-Source/src/lib/base/Stopwatch.cpp:57-67 | Saves the time shown |
| Stopwatch.Stopwatch.Start | src/synergy-1.4.18-Source/src/lib/base/Stopwatch.cpp:69-80 | Goes on from the saved time and removes the trigger |
| Stopwatch.Stopwatch.SetTrigger | src/synergy-1.4.18-Source/src/lib/base/Stopwatch.cpp:82-87 | Stops and arms |
| Stopwatch.Stopwatch.GetTime | src/synergy-1.4.18-Source/src/lib/base/Stopwatch.cpp:89-103 | Returns the time shown and starts an armed watch |
| PriorityQueue.TopIsLeast | src/synergy-1.4.18-Source/src/lib/base/PriorityQueue.h:115-119 | No timer in a heap has less time left than the one on top |
| PriorityQueue.MinusAllKeepsHeap | src/synergy-1.4.18-Source/src/lib/base/EventQueue.cpp:497-501 | Subtracting one amount from every element keeps a heap a heap |
| PriorityQueue.MinusAllElements | src/synergy-1.4.18-Source/src/lib/base/EventQueue.cpp:497-501 | Every timer is counted down exactly once |
| PriorityQueue.UpStep | src/synergy-1.4.18-Source/src/lib/base/PriorityQueue.h:54-58 | Moving a new element up one level leaves only its new place to check |
| PriorityQueue.DownStep | src/synergy-1.4.18-Source/src/lib/base/PriorityQueue.h:61-65 | Moving an element down one level leaves only its new place to check |
| PriorityQueue.PriorityQueue.Push | src/synergy-1.4.18-Source/src/lib/base/PriorityQueue.h:54-58 | Adds one element and keeps the heap |
| PriorityQueue.PriorityQueue.Pop | src/synergy-1.4.18-Source/src/lib/base/PriorityQueue.h:61-65 | Removes exactly the top and keeps the heap |
| PriorityQueue.PriorityQueue.Erase | src/synergy-1.4.18-Source/src/lib/base/PriorityQueue.h:68-72 | Removes exactly the element at the place and makes a heap again |
| PriorityQueue.PriorityQueue.SubtractFromAll | src/synergy-1.4.18-Source/src/lib/base/EventQueue.cpp:497-501 | The loop subtracts the amount from every element in place and keeps the heap |
| PriorityQueue.PriorityQueue.Top | src/synergy-1.4.18-Source/src/lib/base/PriorityQueue.h:116-119 | A timer with the least time left |
| PriorityQueue.MakeHeap | src/synergy-1.4.18-Source/src/lib/base/PriorityQueue.h:68-72 | Any elements, rearranged into a heap |
| Timers.ReportedWhenDue | src/synergy-1.4.18-Source/src/lib/base/EventQueue.cpp:482-506 | A poll reports a timer if and only if one is due, then one that has been due longest, and never before its duration has passed since its creation or last report, for every clock that does not go back |
| Timers.TimeLeft | src/synergy-1.4.18-Source/src/lib/base/EventQueue.cpp:493-501 | What is left of a countdown is the duration from when it began, put off by exactly the time between the two clock readings of the polls since |
| Timers.ReportedCount | src/synergy-1.4.18-Source/src/lib/base/EventQueue.cpp:628-635 | The count is at least one and is the number of whole durations in the counted time; all counts since creation fit into the time since creation |
| Timers.TotalWithinLife | src/synergy-1.4.18-Source/src/lib/base/EventQueue.cpp:482-522 | Over any run the counts times the duration never exceed the time since creation |
| Timers.CountIsOne | src/synergy-1.4.18-Source/src/lib/base/EventQueue.cpp:628-635 | The count is 1 if and only if the poll comes before a second duration has been counted, one-shot or not |
| Timers.OneShotCountsFive | src/synergy-1.4.18-Source/src/lib/base/EventQueue.cpp:628-635 | A one-shot timer reported with count 5 |
| Timers.AsCreated | src/synergy-1.4.18-Source/src/lib/base/EventQueue.cpp:314-349 | A timer keeps the duration, target and kind it was created with |
| Timers.ThereIff | src/synergy-1.4.18-Source/src/lib/base/EventQueue.cpp:314-367 | In every run a timer is there if and only if it has been created and not deleted since and, if it is a one-shot timer, not reported since |
| Timers.DeletedIsGone | src/synergy-1.4.18-Source/src/lib/base/EventQueue.cpp:352-367 | In every run a deleted timer is not reported until its id is created again |
| Timers.NextTimeoutIsRight | src/synergy-1.4.18-Source/src/lib/base/EventQueue.cpp:524-537 | After waiting as long as getNextTimerTimeout says a poll reports a timer, and not before |
| Timers.ReportedInTurn | src/synergy-1.4.18-Source/src/lib/base/EventQueue.cpp:482-522 | A due timer that is not deleted is reported once there have been more polls than timers that were due before it, whatever is created, deleted or started again meanwhile |
| Timers.EventTimers.NewTimer | src/synergy-1.4.18-Source/src/lib/base/EventQueue.cpp:314-330 | Adds a countdown that makes up for what is on the stopwatch |
| Timers.EventTimers.NewOneShotTimer | src/synergy-1.4.18-Source/src/lib/base/EventQueue.cpp:333-349 | The same for a one-shot timer |
| Timers.EventTimers.DeleteTimer | src/synergy-1.4.18-Source/src/lib/base/EventQueue.cpp:352-367 | The timer is neither in the heap nor among the timers afterwards, and the others are as they were |
| Timers.EventTimers.HasTimerExpired | src/synergy-1.4.18-Source/src/lib/base/EventQueue.cpp:482-522 | On the heap and the stopwatch, a poll is a step of the timer machine and fills the event accordingly |
| Timers.EventTimers.NextTimerTimeout | src/synergy-1.4.18-Source/src/lib/base/EventQueue.cpp:524-537 | -1 without timers, 0 if one has expired, otherwise the least time left |
| EventQueue.ChosenIsFree | src/synergy-1.4.18-Source/src/lib/base/EventQueue.cpp:444-461 | The id that saveEvent chooses is not in use, and ids in use and old ids stay a partition of the first numbers |
| EventQueue.TakenIsFree | src/synergy-1.4.18-Source/src/lib/base/EventQueue.cpp:464-480 | Giving an id back keeps the partition |
| EventQueue.OrderAfterAdd | src/synergy-1.4.18-Source/src/lib/base/EventQueue.cpp:298-311 | Adding puts the event behind those that are waiting |
| EventQueue.OrderAfterTake | src/synergy-1.4.18-Source/src/lib/base/EventQueue.cpp:243-248 | Taking the id at the back of the buffer takes the first event and leaves the others in order |
| EventQueue.EveryEventAccounted | src/synergy-1.4.18-Source/src/lib/base/EventQueue.cpp:105-295 | Over any run from any state, every event put in the queue is out, waiting or lost with a replaced buffer, and as often as it was put in |
| EventQueue.NothingLost | src/synergy-1.4.18-Source/src/lib/base/EventQueue.cpp:105-295 | Over any run from any state, every event comes out once, in the order of addition, pending ones first, or is still waiting, if and only if the buffer is never replaced while events wait in it |
| EventQueue.TakesHandOut | src/synergy-1.4.18-Source/src/lib/base/EventQueue.cpp:243-248 | n takes hand out exactly the first n waiting events, each once, and leave the others waiting; without a started loop they hand out nothing |
| EventQueue.ReadyOnceStarted | src/synergy-1.4.18-Source/src/lib/base/EventQueue.cpp:105-118 | The queue hands out events once its loop has started, and not before |
| EventQueue.EventQueue.AddEvent | src/synergy-1.4.18-Source/src/lib/base/EventQueue.cpp:272-295 | Events of the three bogus kinds are dropped, immediate events are handed over at once, and every other event waits behind those that wait, whether pending or in the buffer |
| EventQueue.EventQueue.BecomeReady | src/synergy-1.4.18-Source/src/lib/base/EventQueue.cpp:108-118 | The queue is ready, the pending events are in the buffer, and what waits and in which order is as before |
| EventQueue.EventQueue.GetEvent | src/synergy-1.4.18-Source/src/lib/base/EventQueue.cpp:198-254 | The first waiting event is returned and no longer waits; only if none waits, the timers are polled |
| EventQueue.EventQueue.AdoptBuffer | src/synergy-1.4.18-Source/src/lib/base/EventQueue.cpp:170-195 | A step of the plain queue: waiting events in the old buffer and all ids are discarded, pending ones kept |
| EventQueue.EventQueue.SaveEvent | src/synergy-1.4.18-Source/src/lib/base/EventQueue.cpp:444-461 | Stores the event under a recycled or a new id |
| EventQueue.EventQueue.RemoveEvent | src/synergy-1.4.18-Source/src/lib/base/EventQueue.cpp:464-480 | Looks the event up, frees its id, and returns the empty event for an unknown id |
| EventQueue.SimpleEventQueueBuffer.AddEvent | src/synergy-1.4.18-Source/src/lib/base/SimpleEventQueueBuffer.cpp:71-80 | Puts the id at the front and sets the ready flag |
| EventQueue.SimpleEventQueueBuffer.GetEvent | src/synergy-1.4.18-Source/src/lib/base/SimpleEventQueueBuffer.cpp:58-68 | Takes the id at the back and keeps the ready flag true to the queue |
| EventQueueStart.NothingVanishes | src/synergy-1.4.18-Source/src/lib/base/EventQueue.cpp:272-311 | While the loop is starting, in every interleaving of threads that add events, every event put away is in the buffer or pending, once |
| EventQueueStart.LateAreStranded | src/synergy-1.4.18-Source/src/lib/base/EventQueue.cpp:105-118 | Once the loop is past the pending events, those still pending are exactly the ones put there by threads that looked at the ready flag too early, and they stay there |
| EventQueueStart.AllReachTheBufferIff | src/synergy-1.4.18-Source/src/lib/base/EventQueue.cpp:105-118 | When the loop finds no more pending events: all events reach the buffer in every continuation if and only if no thread is then between finding the flag unset and putting its event away |
| EventQueueStart.LateStrands | src/synergy-1.4.18-Source/src/lib/base/EventQueue.cpp:289-294 | Such a thread can leave its event behind with its next step |
| EventQueueStart.BufferedIffNonePending | src/synergy-1.4.18-Source/src/lib/base/EventQueue.cpp:272-311 | The buffer holds every event put away if and only if none is pending |
| EventQueueStart.OrderKeptIff | src/synergy-1.4.18-Source/src/lib/base/EventQueue.cpp:109-118 | Different events keep the order in which they were added if and only if none went into the buffer while others were pending |
| EventQueueStart.OrderKept | src/synergy-1.4.18-Source/src/lib/base/EventQueue.cpp:109-118 | Without such an overtaking any events, equal ones included, keep the order |
| EventQueueStart.OvertakingExample | src/synergy-1.4.18-Source/src/lib/base/EventQueue.cpp:289-311 | A run in which a later event goes into the buffer before an earlier one |
| EventQueueStart.StrandedExample | src/synergy-1.4.18-Source/src/lib/base/EventQueue.cpp:289-294 | An event that is never delivered |
| ClientStates.AlwaysSane | src/synergy-1.4.18-Source/src/lib/client/Client.cpp:124-207 | Whatever the user does and whatever events arrive in whatever order, stale ones included: nothing is set up while suspended, enable and disable alternate, the screen is enabled and the last news is connected exactly while the handshake is complete |
| ClientStates.ReceiveAllSane | src/synergy-1.4.18-Source/src/lib/client/ServerProxy.cpp:109-334 | Any messages from the server, in either parser, keep that |
| ClientStates.ResumeReconnects | src/synergy-1.4.18-Source/src/lib/client/Client.cpp:698-716 | From any state and whatever comes between, resuming starts a new connection, if the sockets let it, exactly when one is wanted: the last of connect, disconnect and suspend decides, and without any of them whether the client was connected when suspended |
| ClientStates.SecondSuspendForgets | src/synergy-1.4.18-Source/src/lib/client/Client.cpp:698-716 | A second suspend, wherever it comes, makes the client forget that it was connected; only what the user asks for after it counts |
| ClientOutcomes.GivenUpForGood | src/synergy-1.4.18-Source/src/lib/client/Client.cpp:511-565 | A stream or timer that has been given up stays given up: in every run from there its events, of whatever kind, do nothing |
| ClientOutcomes.AlarmAfter | src/synergy-1.4.18-Source/src/lib/client/ServerProxy.cpp:85-106 | After a keep-alive, a reset or an option message the patience is as that message says, a new alarm is set if it is positive and none otherwise, and the old alarm has no handler; any other message keeps the alarm |
| ClientOutcomes.OldAlarmIsDead | src/synergy-1.4.18-Source/src/lib/client/ServerProxy.cpp:85-99 | A timer event for an alarm set before such a message changes nothing, whatever happens in between |
| ClientOutcomes.LastRateCounts | src/synergy-1.4.18-Source/src/lib/client/ServerProxy.cpp:809-850 | Of several heartbeat options in a message the last one counts, and three times its seconds are borne |
| ClientOutcomes.AlarmEnds | src/synergy-1.4.18-Source/src/lib/client/ServerProxy.cpp:337-341 | The alarm that is set ends the connection, with a failure |
| ClientOutcomes.MessageEnds | src/synergy-1.4.18-Source/src/lib/client/ServerProxy.cpp:145-334 | Exactly close, errors, refusals, unknown codes and, before the handshake, ordinary messages end the connection; the others keep its stream, and the first options make it ready |
| ClientOutcomes.LostStreamEnds | src/synergy-1.4.18-Source/src/lib/client/Client.cpp:610-627 | Losing the stream ends a connection whichever way it is noticed, and keeps what is to be done on resume |
| ClientOutcomes.NotConnectedEnds | src/synergy-1.4.18-Source/src/lib/client/Client.cpp:583-607 | A connection that cannot be made or is not greeted in time has failed |
| ClientOutcomes.DisconnectingEnds | src/synergy-1.4.18-Source/src/lib/client/Client.cpp:186-199 | Disconnecting and suspending end whatever there is, enabled screen included, and are told even if there is nothing |
| ClientOutcomes.ConnectingStarts | src/synergy-1.4.18-Source/src/lib/client/Client.cpp:125-183 | Connecting starts only from nothing and not while suspended, on a new stream with a new timer; if it cannot start that is told |
| ClientOutcomes.GreetingGoesOn | src/synergy-1.4.18-Source/src/lib/client/Client.cpp:568-695 | The same stream goes through connecting and greeting under the same timer to a connection that bears nine seconds of silence; a greeting that is not understood has failed |
| ClientOutcomes.ScreenReachesProxy | src/synergy-1.4.18-Source/src/lib/client/Client.cpp:483-497 | The screen's shape and clipboard events are handled exactly while there is a connection, and its input is |
| ClientOutcomes.InputIsParsed | src/synergy-1.4.18-Source/src/lib/client/ServerProxy.cpp:109-142 | Input on a connected stream is handed to the parsers, the first message first |
| ClientOutcomes.HandledUntilEnd | src/synergy-1.4.18-Source/src/lib/client/ServerProxy.cpp:109-142 | Messages are handled one after the other until one ends the connection; the rest is not looked at |
| ClientLifecycle.Client.constructor | src/synergy-1.4.18-Source/src/lib/client/Client.cpp:52-103 | Registers exactly the idle phase's handlers |
| ClientLifecycle.Client.Connect | src/synergy-1.4.18-Source/src/lib/client/Client.cpp:125-183 | Starts connecting, or gives everything back and reports failure at whichever stage it fails, or remembers the wish while suspended |
| ClientLifecycle.Client.Disconnect | src/synergy-1.4.18-Source/src/lib/client/Client.cpp:186-199 | From any phase gives back exactly the handlers and timers of the phase and tells why |
| ClientLifecycle.Client.HandleConnected | src/synergy-1.4.18-Source/src/lib/client/Client.cpp:568-580 | Exchanges the connecting handlers for those of a connection |
| ClientLifecycle.Client.HandleConnectionFailed | src/synergy-1.4.18-Source/src/lib/client/Client.cpp:583-595 | Back to idle with nothing left over |
| ClientLifecycle.Client.HandleConnectTimeout | src/synergy-1.4.18-Source/src/lib/client/Client.cpp:598-607 | Back to idle with nothing left over, before or after the socket connected |
| ClientLifecycle.Client.GoIdle | src/synergy-1.4.18-Source/src/lib/client/Client.cpp:609-627 | Output errors and disconnections give back everything, with or without a proxy |
| ClientLifecycle.Client.HandleHello | src/synergy-1.4.18-Source/src/lib/client/Client.cpp:658-695 | A bad or incompatible hello gives back everything; a good one sets up the proxy, its handlers and its alarm and removes the connect timer |
| ClientLifecycle.Client.HandleSuspend | src/synergy-1.4.18-Source/src/lib/client/Client.cpp:698-705 | Disconnects and remembers whether it was connected |
| ClientLifecycle.Client.HandleResume | src/synergy-1.4.18-Source/src/lib/client/Client.cpp:708-716 | Connects again if that was remembered |
| ClientLifecycle.Client.HandshakeComplete | src/synergy-1.4.18-Source/src/lib/client/Client.cpp:202-207 | Enables the screen and tells that the client is connected |
| ClientLifecycle.Client.HandleData | src/synergy-1.4.18-Source/src/lib/client/ServerProxy.cpp:109-142 | Handles messages until the connection is gone |
| ClientLifecycle.Client.ParseMessage | src/synergy-1.4.18-Source/src/lib/client/ServerProxy.cpp:145-334 | On fields, handlers and timers, one message has the effect that the rows of ClientOutcomes describe |
| ClientLifecycle.Client.ChangeRate | src/synergy-1.4.18-Source/src/lib/client/ServerProxy.cpp:102-106 | Replaces the alarm timer and its handler by one for the new rate, or by none |
| ClientLifecycle.Client.HandleKeepAliveAlarm | src/synergy-1.4.18-Source/src/lib/client/ServerProxy.cpp:337-341 | Disconnects and gives everything back |
| ClientLifecycle.Client.DispatchEvent | src/synergy-1.4.18-Source/src/lib/base/EventQueue.cpp:257-269 | Any event, also for streams and timers long gone, runs the handler registered for it, or nothing; it fails exactly if that handler does not suit the phase |
| ClientLifecycle.Client.Destroy | src/synergy-1.4.18-Source/src/lib/client/Client.cpp:105-122 | The handlers of others are found as they were if and only if drag and drop is off; the timers always |
| ClientLifecycle.Client.FieldFacts | src/synergy-1.4.18-Source/src/lib/client/Client.cpp:218-227 | Connected and connecting never hold together, ready implies a proxy, no stream while suspended |
| ClientLifecycle.ServerProxy.constructor | src/synergy-1.4.18-Source/src/lib/client/ServerProxy.cpp:41-75 | Takes over input on the stream and sets the alarm at nine seconds |
| ClientLifecycle.ServerProxy.Destroy | src/synergy-1.4.18-Source/src/lib/client/ServerProxy.cpp:77-82 | Gives back the input handler and the alarm |
| ClientLifecycle.ServerProxy.ResetKeepAliveAlarm | src/synergy-1.4.18-Source/src/lib/client/ServerProxy.cpp:85-99 | Exactly one alarm timer with its handler if the rate is positive, none otherwise |
| ClientLifecycle.ToIdle | src/synergy-1.4.18-Source/src/lib/client/Client.cpp:511-565 | Removing the keys of the phase, and perhaps more of the client's own, leaves exactly the idle phase's handlers and those of others |
| ClientLifecycle.LeavingClears | src/synergy-1.4.18-Source/src/lib/client/Client.cpp:186-199 | The cleanup functions between them remove everything that belongs to the phase, and nothing else |
| ClientLifecycle.WaitingClears | src/synergy-1.4.18-Source/src/lib/client/Client.cpp:598-607 | So do the shorter ways out before there is a proxy |
| ClientLifecycle.GreetingTable | src/synergy-1.4.18-Source/src/lib/client/Client.cpp:568-572 | Switching from connecting to connected handlers gives exactly the greeting phase's table |
| ClientLifecycle.UpTable | src/synergy-1.4.18-Source/src/lib/client/Client.cpp:685-686 | Setting up the proxy and removing the timer gives exactly the connected phase's table |
| ClientLifecycle.AlarmTable | src/synergy-1.4.18-Source/src/lib/client/ServerProxy.cpp:85-99 | Replacing the alarm keeps the table right |
| ClientStates.HandlersSuit | src/synergy-1.4.18-Source/src/lib/client/Client.cpp:425-438 | A handler is registered in a phase that lacks the stream or proxy it uses if and only if drag and drop is on, it is the handler for chunks of files to send, and there is no proxy |
| ClientStates.NeverFailsIff | src/synergy-1.4.18-Source/src/lib/client/Client.cpp:722-725 | From any state and for any inputs, every handler that is run finds what it uses if and only if drag and drop is off or no such chunk is announced while the client is not connected |
| ClientStates.ChunkAfterDisconnecting | src/synergy-1.4.18-Source/src/lib/client/Client.cpp:425-438 | A run that connects, is greeted and disconnects while a chunk is on its way, which then fails the assertion |
| ClientLifecycle.DestructionLeaves | src/synergy-1.4.18-Source/src/lib/client/Client.cpp:105-122 | What the destructor leaves registered |
| MouseMotion.CompressionDrifts | src/synergy-1.4.18-Source/src/lib/client/ServerProxy.cpp:109-142 | For every batch, mixed or not, each press and leaving is seen at the position of immediate forwarding plus exactly the drift, and so is the final cursor |
| MouseMotion.InvisibleIff | src/synergy-1.4.18-Source/src/lib/client/ServerProxy.cpp:688-749 | Compression is invisible if and only if the drift is zero at every key, button, wheel and leave call and at the end |
| MouseMotion.OneKindInvisible | src/synergy-1.4.18-Source/src/lib/client/ServerProxy.cpp:688-749 | A batch with only absolute or only relative motion looks the same as with immediate forwarding |
| MouseMotion.NoOvertakingNoDrift | src/synergy-1.4.18-Source/src/lib/client/ServerProxy.cpp:699-748 | There is no drift unless a motion is forwarded at once while motion of the other kind is kept back |
| MouseMotion.MixedBatchDrifts | src/synergy-1.4.18-Source/src/lib/client/ServerProxy.cpp:721-749 | A kept relative motion overtaken by an absolute one is added to it |
| MouseMotion.AnswerIsOff | src/synergy-1.4.18-Source/src/lib/client/ServerProxy.cpp:853-859 | An information query in the middle of a batch is answered with a position that is off by the drift less what is kept back |
| MouseMotion.NothingKeptBack | src/synergy-1.4.18-Source/src/lib/client/ServerProxy.cpp:109-142 | Over any sequence of batches and shape changes nothing stays pending after a normal return, and unmixed batches are never visible; when a message ends the connection, what is then kept back is all that is missing |
| MouseMotion.NothingAfterStop | src/synergy-1.4.18-Source/src/lib/client/ServerProxy.cpp:109-142 | A message that ends the connection leaves what is kept back unsent and the rest of the batch unread |
| MouseMotion.IgnoredWhileUnacknowledged | src/synergy-1.4.18-Source/src/lib/client/ServerProxy.cpp:344-352 | As long as the connection lasts, motion is ignored exactly from a change of the screen's shape to its acknowledgment |
| MouseMotion.StepDrift | src/synergy-1.4.18-Source/src/lib/client/ServerProxy.cpp:515-764 | One message: compression is never on while motion is ignored, and the drift changes as stated |
| MouseMotion.MouseProxy.FlushCompressedMouse | src/synergy-1.4.18-Source/src/lib/client/ServerProxy.cpp:371-383 | Sends what is kept back, absolute before relative |
| MouseMotion.MouseProxy.MouseMove | src/synergy-1.4.18-Source/src/lib/client/ServerProxy.cpp:689-719 | Keeps, ignores or forwards an absolute motion |
| MouseMotion.MouseProxy.MouseRelativeMove | src/synergy-1.4.18-Source/src/lib/client/ServerProxy.cpp:722-749 | Keeps and adds up, ignores or forwards a relative motion |
| MouseMotion.MouseProxy.PressInput | src/synergy-1.4.18-Source/src/lib/client/ServerProxy.cpp:588-686 | Sends what is kept back before a key or button call; the wheel does the same |
| MouseMotion.MouseProxy.EnterScreen | src/synergy-1.4.18-Source/src/lib/client/ServerProxy.cpp:516-534 | Discards what is kept back |
| MouseMotion.MouseProxy.LeaveScreen | src/synergy-1.4.18-Source/src/lib/client/ServerProxy.cpp:537-547 | Sends what is kept back before leaving |
| MouseMotion.MouseProxy.InfoAcknowledgment | src/synergy-1.4.18-Source/src/lib/client/ServerProxy.cpp:862-866 | Motion counts again |
| MouseMotion.MouseProxy.OnInfoChanged | src/synergy-1.4.18-Source/src/lib/client/ServerProxy.cpp:344-352 | Motion is ignored from now on |
| MouseMotion.MouseProxy.HandleData | src/synergy-1.4.18-Source/src/lib/client/ServerProxy.cpp:109-142 | A batch is handled message by message and finished with a flush; a message that ends the connection ends it there, without one |

## Left out

- Qt GUI, task bar receivers, setup wizard, translations and the build toolchain.
- The server side, CProtocolUtil, CPacketStreamFilter, CScreen and clipboard marshalling: messages arrive parsed, screen calls are a trace.
- CryptoStream and CryptoMode, the decryption of messages, and the stale crypto stream pointer between connections.
- File transfer, drag and drop contents, logging and IPC log forwarding: queues around input and output.
- Clipboard ownership flags and times of the client: only whether a proxy is there when they are used.
- Locale and wide-character conversions, UCS-2 and UTF-32: the same loops around the same two functions, or C library calls.
- Wakeup of a polling service thread: unblockPollSocket has no effect on a thread that is not polling.
- Blocking in waitForEvent and in getEvent with a timeout other than zero, and dispatching until the quit event: other threads' calls are the other operations.
- The event queue's type names and handler table; the client's use of the table is in ClientLifecycle.
- EmbeddedClient.EmbeddedClient.UpdateContext: does not model lengths outside the stated range, and so leaves the body of the oversize branch and the trace texts out.
- EmbeddedClient.EmbeddedClient.Update: does not model streams outside that range either.
- EmbeddedClient.EmbeddedClient.ProcessMessage: does not model bodies shorter than what their handler reads, where the original reads on into whatever lies behind them.
- EmbeddedClient.EmbeddedClient.ReadFormats: does not model format counts and sizes that run past the body, for the same reason.
- EmbeddedClient.EmbeddedClient.SendClipboard: does not model text over 995 bytes, where the original announces a clipped length but appends the whole text; nor names that do not fit the reply buffer.
- Receiving.StreamProcessed: does not model a new connection whose stream starts afresh while bytes of the old one are pending; they are read as its beginning, which need not make acceptable frames.
- EventQueue.EventQueue.GetEvent: does not model waiting, timeouts other than zero and system events.
- EventQueue.EventQueue.AdoptBuffer: does not model adopting a buffer that already holds ids or that is not a simple one.
- ClientLifecycle.Client.Connect: does not model the chain of stream filters or the freeing of streams, only the address that handlers are registered for.
- ClientLifecycle.Client.HandleData: does not model that the proxy is deleted while its own method runs; the method returns without touching it again.
- MouseMotion.MouseProxy.HandleData: does not model sending the answers to information queries; what they say is in MouseMotion.AnswerIsOff.
- JobListFairness.ClaimantGetsList: promises nothing to a thread still inside lockJobListLock, where threads that come later may be faster.
