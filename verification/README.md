# A model of the rioring send and receive engine

rioring puts sockets on top of io_uring (Linux) and Registered I/O (Windows). User threads
append to a per-socket send buffer while the kernel reads from that same memory; ring threads
handle completions; contexts travel from a pool to the kernel and back. This project models
that engine and the chat programs built on it, and proves what the code relies on but never
writes down. `dafny verify dfyconfig.toml` checks everything.

## How it is put together

**Two layers.** The objects that the library updates in place are classes over heap arrays:
`IoBuffer`, `IoDoubleBuffer`, `SimplePool`, `IoService`, `TcpSocket`, `WinSocket`, `TcpServer`,
`ClientPool`. Any number of sockets share one heap and one service. The methods of buffers, pool
and sockets are proved equal to functions on plain values (`Pushed`, `Queued`, `Elevated`,
`Sent`, `Acked`, `Closing`, `Dispatched`, ...). The concurrent behaviour is stated as step
systems: a state, the steps enabled in it, and theorems over every sequence of steps. The step
systems of sender, receiver and pool are built from those same functions, so a change in one of
them breaks the class on one side or a theorem on the other. `Engine.dfy` runs any number of
sockets on one heap and one service with them: every step is what a method's contract says. The
accept chain, starting and stopping, and the log of broadcasts have step systems of their own;
`ChatServer.dfy` joins the accept chain, all receive chains, all senders and the broadcast into one.

| file | what it holds |
|---|---|
| `Memory.dfy` | `malloc`, `free`, `realloc`, `memcpy`, `memmove`, and the ledger of live pointers |
| `IoBuffer.dfy`, `IoDoubleBuffer.dfy` | the growable buffer, its growth loops, and the pair that makes one byte queue |
| `IoService.dfy`, `Ownership.dfy` | contexts, the pool, routing to a ring, and who owns which context |
| `TcpSocket.dfy` | one socket on Linux and the completion loop around it |
| `Engine.dfy` | any number of sockets, their contexts and their memory, over every run |
| `Sender.dfy` | the Linux send pipeline as a step system |
| `Descriptor.dfy`, `SendCaller.dfy` | who closes the descriptor, and which threads may call `send` |
| `FifoSender.dfy`, `Refinement.dfy`, `WinSender.dfy` | a stream sender without buffers, and both platforms implementing it |
| `Receiver.dfy` | the read chain, in the stages between which the kernel can act |
| `TcpServer.dfy`, `StartStop.dfy` | the accept chain, and starting and stopping the ring threads |
| `Framing.dfy`, `Chat.dfy` | length-prefixed frames and the chat messages |
| `Broadcast.dfy`, `ClientPool.dfy`, `ChatServer.dfy` | the log of broadcasts, the pool on real sockets, and the server as a whole |
| `EndToEnd.dfy` | frames from one application to the other |

**The kernel** is a set of requests in flight. It may complete any of them at any time with any
result the request allows: a write transfers any non-empty prefix of its view or fails, a read
brings 1 to 64K bytes or ends. It reads a view through `Peek`, which yields bytes only if the
block is live; from a dead or moved block it gets junk. That the junk case never happens is a
theorem, not part of the model.

**What runs without a lock** is split into steps, and anything may happen in between: a send tests
the flags (`Check`) and later enters its locked part (`Append`); a shutdown handler tests the
descriptor, copies it, zeroes the field and closes its copy (`TestFd`, `CopyFd`, `ZeroFd`, `CloseFd`).
The thread of a ring is inside one handler at a time.

**The descriptor** is read when a request is submitted. A socket goes on accepting after the field
was zeroed, until its read chain ends; writes and reads submitted in that time go to descriptor 0.
The model keeps their bytes apart: `strayed` beside `delivered`, `alien` beside `got`.

## What is proved

- *Stream integrity.* In every run of the Linux sender until it hangs up, the peer has a prefix of
  the accepted bytes, and the accepted bytes are the delivered ones, those that went to descriptor
  0, and what the two buffers hold beyond the part the kernel has already taken. One write carrying
  bytes is in flight exactly while data is pending, and it lies within main
  (`Sender.StreamIntegrity`). Its memory neither moves nor changes (`Sender.InFlightMemoryStable`).
- *Closing.* A graceful shutdown goes out only when nothing is pending, and while the descriptor is
  there only when the peer has everything (`Sender.GracefulShutdownIsDrained`). Unless somebody
  forces a close, it goes out within as many successful completions as there were bytes to go
  (`Sender.GracefulCloseFinishes`).
- *Two platforms.* Under the conditions below, Linux runs and Windows runs are behaviours of one
  buffer-free sender, state by state (`LinuxRefinement.LinuxRunsAreBehaviours`, `WinSender.WinRunsAreBehaviours`).
- *Closing on Windows.* A graceful close with data pending refuses later sends and closes the socket
  itself, with everything delivered, within as many completions as there were bytes to go
  (`WinSender.CloseRefusesIff`, `WinSender.GracefulCloseFinishes`).
- *Receiving.* Every received byte is consumed, in `recv_buffer`, or waiting in the bind buffer,
  in that order; one ring thread alone ever touches the buffer (`Receiver.ReceiveIntegrity`).
- *The engine.* However many sockets are opened, sent on, closed and served by however many rings: a
  socket that is up has exactly one read out, always on the ring of its first, and one that is down
  has none, so that no completion ever reaches a receive buffer that is gone; no two sockets share
  memory, and the live blocks are exactly those the sockets own (`Engines.EngineRuns`).
- *Framing.* However the stream is cut, the receive loop takes out exactly the sent frames
  (`Framing.FramingRoundTrip`), and `EndToEnd.FramesArrive` puts sender, receiver and loop
  together.
- *Broadcast.* A message reaches every client that is registered and up when its turn comes, once, and
  nobody else (`Broadcast.EveryoneIsTold`); each client that was idle submits one write of it
  (`ClientPools.ClientPool.ChatAll`). Each client accepts one contiguous piece of the log of broadcasts
  (`Broadcast.EachClientHasOneSegment`), so two clients agree on what they share. In the whole
  server every broadcast reaches a client through the steps of that client's sender
  (`ChatServers.ServerRuns`), so the client's own receive loop takes out a contiguous piece of
  the log (`EndToEnd.BroadcastsArrive`). All reads, callbacks and hang-ups of all clients run on the
  ring of the accept chain (`ChatServers.AllOnOneRing`), so that nobody hangs up during a broadcast
  and every broadcast ends (`ChatServers.BroadcastsEnd`).
- *Memory and contexts.* Over any run whatever, the live blocks are the ones main and sub own
  (`IoDoubleBuffers.RunConservesBlocks`), and neither is ever larger than the larger of its first size
  and twice the most that was queued (`IoDoubleBuffers.QueueBound`). Each context has one owner and
  carries what it was issued with, the pool hands out the one that came in first, and no more are
  ever created than the larger of the initial pool and the peak in use (`Ownership.OwnershipHolds`).

Some expectations hold only under a condition, and the condition is proved to be exact:

- The peer gets the whole stream, and what the peer sees is a behaviour of the abstract sender, if
  and only if no write submitted after the descriptor was zeroed transferred (or, for the second, was
  acknowledged). While the descriptor is there that is always so. After an idle graceful close it
  need not be: `Sender.SendAfterClose` is a run in which a byte is accepted, the callback fires, and
  the peer has nothing (`Sender.StreamIntegrity`, `LinuxRefinement.LinuxRunsAreBehaviours`).
- The descriptor is closed at most once if and only if no shutdown handler copies it between
  another's copying and zeroing, and descriptor 0 is not closed in its place if and only if none
  copies the field after another zeroed it (`Descriptors.ClosedOnceIff`). Two forced closes from
  different threads are enough for either (`Descriptors.ClosedTwice`); one ring for all shutdowns
  rules both out (`Descriptors.OneRingClosesOnce`).
- A send that has passed its tests can be caught by a hang-up, and never return, if and only if it is
  called on another thread than that of the ring which serves the socket's reads
  (`SendCallers.CaughtUnlessHome`, `SendCallers.CaughtForEver`). The chat client calls `send` on its
  main thread; the chat server calls it on that ring's thread alone.
- A push returns if and only if the bytes fit or the growth unit is positive; otherwise the growth
  loop never ends (`IoBuffers.PushReturnsIff`).
- A send of no bytes on an idle socket submits an empty write. On Linux that is harmless and covered
  by every theorem. On Windows the stream survives if and only if the send has bytes or a write is
  already under way; otherwise a later byte can be delivered twice (`WinSender.SendSafeIff`,
  `WinSender.EmptySendDuplicates`).
- A graceful close refuses later sends if and only if data was pending; on an idle socket it submits
  the shutdown and leaves the flag down (`Sender.GracefulCloseRefusesIff`).
- After a hang-up freed the buffers, a send that had already passed its checks returns if and only
  if it carries no bytes, and a view in flight shows nothing (`Sender.HangupEndsViews`).
- A frame with a foreign code makes the receive loop leave, so it costs one receive event. For
  arbitrary bytes, all cuts of the stream into reads of 1 to 64K bytes give the same frames if and
  only if behind every foreign frame that has a proper one behind it there are at least as many
  times 64K bytes as there are such foreign frames from it on (`Framing.ChunkingIsInvisibleIff`).
  For a stream of at most 64K bytes that is: no foreign frame before a proper one
  (`Framing.ShortStreams`). For each single cut the exact condition is `Framing.NothingLostIff`.

## Model

| member | source | states |
|---|---|---|
| `IoBuffers.IoBuffer.constructor` | src/include/rioring/io_buffer.h:14-46 | a default buffer owns no block and has capacity, growth unit and content zero |
| `IoBuffers.IoBuffer.MoveFrom` | src/io_buffer.cpp:29-39 | the target takes over block, sizes and content; the source is left blank; the target's own block is dropped without being freed |
| `IoBuffers.IoBuffer.Assign` | src/io_buffer.cpp:41-49 | frees the old block if there is one, allocates the new one, empties the buffer and makes the size its growth unit |
| `IoBuffers.IoBuffer.Destroy` | src/io_buffer.cpp:51-58 | frees the block exactly if there is one and blanks the buffer; a second call changes nothing |
| `IoBuffers.IoBuffer.Read` | src/io_buffer.cpp:60-68 | copies the first bytes to the front of the target and removes nothing; fails, touching nothing, exactly if fewer are held |
| `IoBuffers.IoBuffer.Pop` | src/io_buffer.cpp:70-75 | removes a prefix in place within the same block; asked for more than is held it changes nothing |
| `IoBuffers.IoBuffer.NextSize` | src/io_buffer.cpp:79-82 | the inner growth loop stops at the first step of the unit beyond the need |
| `IoBuffers.IoBuffer.Push` | src/io_buffer.cpp:77-89 | appends the bytes; keeps the block if they fit, otherwise moves to one of the grown size, whose content is the old content and the new bytes; the outer loop turns at most once |
| `IoBuffers.IoBuffer.OnOverflow` | src/io_buffer.cpp:97-100 | the content survives the move to a larger block and the old pointer is dead |
| `IoBuffers.GrowthFormula` | src/io_buffer.cpp:77-85 | from a multiple of the unit the loops reach (need / unit + 1) * unit, a multiple again, more than needed and by at most one unit |
| `IoBuffers.PushReturnsIff` | src/io_buffer.cpp:77-85 | the two loops end if and only if the bytes fit or the unit is positive, and then with the stated capacity |
| `IoBuffers.PushKeeps` | src/io_buffer.cpp:77-89 | content is old content followed by the pushed bytes; no other block is freed or allocated; a push that fits moves nothing |
| `IoBuffers.RunBoundsCapacity` | src/io_buffer.cpp:70-89 | over every run of pushes and pops the capacity stays a multiple of the unit and within one unit of the peak content |
| `IoBuffers.CapacityBound` | src/io_buffer.cpp:41-89 | the same over every run that starts with an assignment of positive size |
| `IoDoubleBuffers.IoDoubleBuffer.constructor` | src/include/rioring/io_double_buffer.h:31 | both buffers start blank and are different objects |
| `IoDoubleBuffers.IoDoubleBuffer.Assign` | src/io_double_buffer.cpp:18-20 | gives main a fresh empty block and leaves sub alone |
| `IoDoubleBuffers.IoDoubleBuffer.Destroy` | src/io_double_buffer.cpp:22-25 | frees both blocks and blanks both buffers |
| `IoDoubleBuffers.IoDoubleBuffer.Pop` | src/io_double_buffer.cpp:31-33 | removes a prefix of main alone |
| `IoDoubleBuffers.IoDoubleBuffer.Push` | src/io_double_buffer.cpp:36-49 | the four-way choice of buffer, with sub sized to the larger of twice the bytes and main; while main holds bytes its array is the same object |
| `IoDoubleBuffers.IoDoubleBuffer.Elevate` | src/io_double_buffer.cpp:53-58 | once main is empty and sub is not, main's block is freed and sub becomes main; otherwise nothing |
| `IoDoubleBuffers.PushStep` | src/io_double_buffer.cpp:36-49 | after an assignment every push returns, appends to main ++ sub, keeps sub blank or non-empty, never shrinks main and leaks no block |
| `IoDoubleBuffers.PushSparesMain` | src/io_double_buffer.cpp:36-49 | with main non-empty, a push neither moves its block nor changes a byte it holds |
| `IoDoubleBuffers.FitStays` | src/io_double_buffer.cpp:38-48 | with sub empty, a push that fits goes to main, allocates nothing and leaves sub alone |
| `IoDoubleBuffers.SpillHasRoom` | src/io_double_buffer.cpp:41-45 | a push that spills allocates exactly one block, the smallest that is no smaller than main's and has room for as many bytes again, and leaves main untouched |
| `IoDoubleBuffers.PopStep` | src/io_double_buffer.cpp:31-33 | what a pop removes followed by what is left is the queue before |
| `IoDoubleBuffers.ElevateStep` | src/io_double_buffer.cpp:53-58 | the queue is unchanged, main is non-empty if the queue is, the freed block is the only one given back |
| `IoDoubleBuffers.RunIsQueue` | src/io_double_buffer.cpp:31-58 | over every run of pushes, pops and elevations after an assignment: all return, taken out ++ still queued equals queued at first ++ put in, and main never shrinks |
| `IoDoubleBuffers.HoldsStep` | src/io_double_buffer.cpp:18-58 | every operation keeps main and sub the owners of live, distinct blocks and changes no other block |
| `IoDoubleBuffers.RunConservesBlocks` | src/io_double_buffer.cpp:18-58 | over every run of assign, push, pop, elevate and destroy that returns, the blocks allocated and not freed are exactly those of main and sub |
| `IoDoubleBuffers.RunBoundsBlocks` | src/io_double_buffer.cpp:31-58 | over every run of pushes, pops and elevations neither block outgrows a limit that was above both and is at least twice the most ever queued in the run |
| `IoDoubleBuffers.QueueBound` | src/io_double_buffer.cpp:18-58 | from the assignment on neither block is ever larger than the larger of its size and twice the most ever queued |
| `IoServices.SimplePool.constructor` | src/include/rioring/simple_pool.h:28-32 | the loop fills the free list with that many new, different contexts in order |
| `IoServices.SimplePool.Pop` | src/include/rioring/simple_pool.h:34-45 | hands out the oldest free context, or a new one exactly if none is free |
| `IoServices.SimplePool.Push` | src/include/rioring/simple_pool.h:47-50 | puts a context at the back of the free list |
| `IoServices.IoService.constructor` | src/io_service.cpp:261 | a full pool of blank contexts, no rings, nothing submitted |
| `IoServices.IoService.AllocateContext` | src/io_service.cpp:289-291 | a context leaves the pool, or is created |
| `IoServices.IoService.DeallocateContext` | src/io_service.cpp:293-299 | handler and view are cleared, the kind stays, the context goes to the back of the pool |
| `IoServices.IoService.Submit` | src/io_service.cpp:313-371 | the request goes to the caller's own ring, or to the drawn one from any other thread |
| `Ownership.IssueSound` | src/io_service.cpp:289-291 | issuing a request takes a context that neither kernel nor handler holds, and counts a new one only if the pool was empty |
| `Ownership.IssueIs` | src/include/rioring/simple_pool.h:34-45 | the context that goes to the kernel is the one that has been in the pool longest, or a new one if it is empty; it carries the given request and handler, is submitted once, and to the ring the caller is routed to |
| `Ownership.ReapSound` | src/io_service.cpp:402-413 | a completion moves its context from the kernel to one handler |
| `Ownership.FinishSound` | src/io_service.cpp:293-299 | returning a context blanks it and leaves it with the pool alone |
| `Ownership.OwnershipHolds` | src/include/rioring/simple_pool.h:28-50 | in every run of the service each context is in exactly one of pool, kernel and handlers; those that are out carry the request and handler they were issued with, pooled ones have no handler and no view and keep their kind; the pool is first in, first out; each request is submitted once, each completion returns its context once, and contexts created equal max(initial size, peak outstanding) |
| `Ownership.RouteIsOwn` | src/io_service.cpp:313-318 | the thread of a ring submits to its own ring, any other thread to a registered one, and each of these can be drawn |
| `Ownership.IssueAllIs` | src/io_service.cpp:289-371 | the requests a call issues leave the service as the contract of that call says, and every context with one owner |
| `TcpSockets.TcpSocket.constructor` | src/tcp_socket.cpp:198-214 | a new socket has blank buffers, is not connected, and has no flag set |
| `TcpSockets.TcpSocket.SetRemoteInfo` | src/tcp_socket.cpp:288-306 | the address is copied into the socket |
| `TcpSockets.TcpSocket.Send` | src/tcp_socket.cpp:245-258 | refused exactly while the graceful flag is up or the socket is down, and then without effect; otherwise the bytes join the queue and a write of all of main is submitted exactly if the queue was empty |
| `TcpSockets.TcpSocket.SubmitSending` | src/tcp_socket.cpp:318-326 | the submitted view is the whole of main, in place, and nothing of sub |
| `TcpSockets.TcpSocket.SubmitReceiving` | src/tcp_socket.cpp:308-316 | the submitted view is the whole bind buffer |
| `TcpSockets.TcpSocket.OnActive` | src/tcp_socket.cpp:260-279 | the socket is up, both buffers hold a fresh 64K block, and one read is submitted |
| `TcpSockets.TcpSocket.IoSent` | src/socket_object.cpp:96-111 | the acknowledged bytes leave main, sub moves up if main ran empty; with data left one write of main goes out, otherwise the callback is called and a graceful socket submits its shutdown |
| `TcpSockets.TcpSocket.OnSendComplete` | src/socket_object.cpp:45-56 | submits a shutdown exactly if the graceful flag is up |
| `TcpSockets.TcpSocket.Close` | src/socket_object.cpp:58-84 | a graceful close with data pending only raises the flag; any other close submits a shutdown at once and raises nothing |
| `TcpSockets.TcpSocket.SubmitShutdown` | src/socket_object.cpp:154-162 | one shutdown request for this socket, with no view |
| `TcpSockets.TcpSocket.IoShutdown` | src/tcp_socket.cpp:281-286 | the socket is down and all its blocks are freed |
| `TcpSockets.TcpSocket.IoReceived` | src/socket_object.cpp:86-94 | the first bytes of the bind buffer join recv_buffer before the next read is submitted |
| `TcpSockets.TcpSocket.CloseHandler` | src/io_service.cpp:437-456 | the descriptor is gone afterwards, whether or not it was before |
| `TcpSockets.TcpSocket.Handle` | src/io_service.cpp:415-459 | the four kinds of completion and their error cases: a read that ends shuts down, a failed write only reports |
| `TcpSockets.TcpSocket.Dispatch` | src/io_service.cpp:411-462 | one turn of the loop: the completion is handled, and then its context, and no other, goes back |
| `TcpSockets.ReadsGoOn` | src/socket_object.cpp:86-94 | a read that brought bytes appends them and submits exactly one read of 64K into the bind buffer, and changes nothing else; no other completion submits a read |
| `TcpSockets.NobodyElseReads` | src/tcp_socket.cpp:245-279 | activation submits the first read; a send submits nothing but a write, a close nothing but a shutdown |
| `TcpSockets.ActivatedIs` | src/tcp_socket.cpp:260-279 | activation gives two new, empty blocks of 64K, raises the flag and changes nothing else |
| `TcpSockets.EndedIs` | src/tcp_socket.cpp:281-286 | ending a socket frees all it owned and nothing else, lowers the flag and changes nothing else |
| `TcpSockets.ClosingIs` | src/socket_object.cpp:71-83 | a forced close, and any close of an idle socket, asks for one shutdown and raises nothing; a graceful close with data pending raises the flag and asks for nothing |
| `TcpSockets.DispatchedIs` | src/io_service.cpp:424-459 | a read that ends ends the socket and asks for nothing; a failed write is reported once and asks for nothing; a completed write asks for the next one over all of main exactly if data is left, otherwise calls back once and asks for a shutdown exactly under the graceful flag; a shutdown removes the descriptor |
| `TcpSockets.SendOwns` | src/io_double_buffer.cpp:18-58 | no send-buffer operation touches a block that is not the send buffer's: recv_buffer and everybody else keep theirs |
| `TcpSockets.ReceiveOwns` | src/socket_object.cpp:86-87 | receiving touches no block but recv_buffer's |
| `TcpSockets.ActivateOwns` | src/tcp_socket.cpp:260-279 | activation allocates two blocks for this socket and frees none but its own |
| `TcpSockets.DispatchOwns` | src/io_service.cpp:415-459 | whatever completes, a socket leaves the blocks of everybody else alone; io_shutdown leaves it none |
| `TcpSockets.OthersOwn` | src/include/rioring/socket_object.h:130-131 | while one socket goes from one state to another, every other socket still owns its live blocks, apart from the new ones |
| `TcpSockets.TcpSocket.StaysValid` | src/io_service.cpp:415-459 | a socket whose blocks stay live stays valid and keeps its whole state while other sockets work on the same heap |
| `TcpSockets.TcpSocket.StaysApart` | src/io_buffer.cpp:41-49 | two sockets that share no memory still share none after one of them has worked |
| `Engines.EngineRuns` | src/io_service.cpp:402-462 | in every run of any number of sockets on one heap and one service: a socket that is up has exactly one read out, of 64K into its bind buffer and on the ring of its first, one that is down none; every completion can be handled; each context has one owner and carries what it was issued with; no two sockets share a block, and the live blocks are exactly theirs |
| `Engines.Handles` | src/io_service.cpp:424-429 | a completed read always finds its socket up and a receive buffer that can take the bytes |
| `Engines.CallsAreMethods` | src/tcp_socket.cpp:245-279 | activation, send and close leave socket and service as the contracts of the methods say |
| `Engines.OutcomeIsDispatched` | src/io_service.cpp:411-415 | the completion is handled on the socket its context was issued for, by the kind it was issued with |
| `Engines.HandlingIsMethod` | src/io_service.cpp:411-462 | handling leaves socket and service as the contract of the method says, on the thread of the ring the request went to, and the context that then goes back is that one |
| `Sender.StartedInv` | src/tcp_socket.cpp:260-279 | an activated socket satisfies the invariant |
| `Sender.AppendKeeps` | src/tcp_socket.cpp:249-255 | a send always returns and keeps the invariant, whatever is in flight |
| `Sender.TransferKeeps` | src/io_service.cpp:342-350 | whatever prefix the kernel transfers, it finds main's first bytes behind its view |
| `Sender.HandleSentKeeps` | src/socket_object.cpp:96-111 | handling a partial or full completion keeps the invariant, with sends landed in between |
| `Sender.HandleErrorKeeps` | src/io_service.cpp:433-435 | a failed write ends the pipeline and keeps the invariant |
| `Sender.StepKeeps` | src/socket_object.cpp:96-111 | every enabled step before the hang-up keeps the invariant |
| `Sender.StreamIntegrity` | src/tcp_socket.cpp:245-258 | in every run: delivered is a prefix of accepted; accepted is delivered, then what went to descriptor 0, then main ++ sub beyond the kernel's part; delivered and the buffers alone make up accepted if and only if no write submitted without the descriptor transferred, which never happens while the descriptor is there; one write in flight exactly while data is pending with 1 <= length <= main; starts of busy periods minus completion events is 1 exactly while data is pending |
| `Sender.StrayedIff` | src/io_service.cpp:348 | over every run bytes have gone to descriptor 0 if and only if a write submitted without the descriptor transferred, and delivered bytes stay delivered |
| `Sender.SendAfterClose` | src/io_service.cpp:437-445 | after a graceful close of an idle socket there is a run in which a byte is accepted, its write goes to descriptor 0, the callback fires and the peer has nothing |
| `Sender.InFlightMemoryStable` | src/io_double_buffer.cpp:36-49 | in every run from submission until the completion is handled, main's block is live, unmoved, and shows the same bytes through the view |
| `Sender.GracefulShutdownIsDrained` | src/socket_object.cpp:58-84 | whenever a graceful close or a completion submits the shutdown, the queue is empty, no byte is in flight, and the peer has everything accepted if and only if nothing went to descriptor 0, which holds while the descriptor is there |
| `Sender.CallbackIsDrained` | src/socket_object.cpp:103-107 | whenever the send-complete callback fires, the same holds |
| `Sender.GracefulCloseFinishes` | src/socket_object.cpp:96-111 | after a graceful close with data pending, unless somebody forces a close, a shutdown goes out at such a drained step, within as many successful completions as bytes were queued or already past the checks |
| `Sender.FailureStalls` | src/io_service.cpp:433-435 | after a failed write with data pending no write that carries bytes is in flight again, the queue never shrinks, no callback fires, and no shutdown goes out unless somebody forces a close |
| `Sender.GracefulAdmitsNothing` | src/tcp_socket.cpp:245-247 | once the flag is up it stays up, and no run accepts a byte that had not passed the checks before |
| `Sender.GracefulCloseRefusesIff` | src/socket_object.cpp:72-79 | a graceful close stops later sends, and withholds the shutdown, if and only if data was pending |
| `Descriptors.ClosedOnceIff` | src/io_service.cpp:437-445 | the descriptor is closed at most once as long as no handler copies it between another's copying and zeroing, descriptor 0 never as long as none copies the field after another zeroed it, and once all handlers are through, only then |
| `Descriptors.ClosedTwice` | src/io_service.cpp:437-445 | two forced closes whose shutdowns go to different rings can close the descriptor twice, or close descriptor 0 |
| `Descriptors.OneRingClosesOnce` | src/io_service.cpp:314-317 | if all shutdowns go to one ring, neither happens |
| `SendCallers.CaughtUnlessHome` | src/tcp_socket.cpp:245-255 | some run catches a send of a caller between its tests and its push, with bytes to push and the buffers gone, if and only if the caller is not the thread of the ring that serves the socket's reads |
| `SendCallers.CaughtRun` | examples/chatclient/main.cpp:72 | any other thread, such as the chat client's main one, is caught by a hang-up right after its tests |
| `SendCallers.CaughtForEver` | src/tcp_socket.cpp:281-286 | a caught send stays caught: in no run does its thread get out of it |
| `Sender.HangupEndsViews` | src/tcp_socket.cpp:281-286 | after io_shutdown a view in flight shows nothing, and a send past its checks returns if and only if it carries no bytes |
| `Sender.HangupIsFinal` | src/tcp_socket.cpp:281-286 | after io_shutdown no run accepts a byte or brings the socket up |
| `FifoSender.BehavioursAreStreams` | src/tcp_socket.cpp:245-258 | in every behaviour of the abstract sender delivered is a growing prefix of accepted, acknowledged never exceeds delivered, and one window at most is open |
| `LinuxRefinement.LinuxRefines` | src/tcp_socket.cpp:318-326 | every step of the Linux sender is, for the peer, a step of the abstract one or none, if and only if it does not acknowledge bytes that went to descriptor 0 |
| `LinuxRefinement.LinuxRunsAreBehaviours` | src/socket_object.cpp:96-111 | what the peer of every run until its hang-up sees, state by state, is a behaviour of the abstract sender if and only if no bytes that went to descriptor 0 were acknowledged |
| `LinuxRefinement.TraceAt` | src/socket_object.cpp:96-111 | the i-th state of that behaviour is what the run shows after its first i steps |
| `LinuxRefinement.DeliveredStays` | src/tcp_socket.cpp:245-258 | between any two moments of any run the delivered bytes only grow at the end |
| `WinSender.WinSocket.constructor` | src/tcp_socket.cpp:17-23 | a new Windows socket has blank buffers, is not connected, and is open |
| `WinSender.WinSocket.SubmitSending` | src/tcp_socket.cpp:132-162 | the front of main, at most 64K of it, is copied into the bind buffer and its length submitted |
| `WinSender.WinSocket.Send` | src/tcp_socket.cpp:62-76 | same admission and queueing as on Linux; a copy is submitted exactly if the queue was empty |
| `WinSender.WinSocket.IoSent` | src/socket_object.cpp:96-111 | the acknowledged bytes leave; with data left the next copy is submitted, otherwise the callback is called and a graceful socket is closed on the spot |
| `WinSender.WinSocket.Close` | src/socket_object.cpp:59-70 | a graceful close with data pending raises the flag; any other close closes at once |
| `WinSender.CompleteKeeps` | src/tcp_socket.cpp:132-134 | the kernel always reads from the bind buffer the bytes at the front of the queue |
| `WinSender.WinRefines` | src/tcp_socket.cpp:132-162 | every step except a send of nothing on an idle queue is a step of the abstract sender, or none; a graceful close or a completion that closes the socket does so with everything delivered |
| `WinSender.CloseRefusesIff` | src/socket_object.cpp:59-70 | a graceful close refuses later sends and leaves the socket open if and only if data was pending; any other close closes the socket at once and refuses nothing |
| `WinSender.RefusesForEver` | src/tcp_socket.cpp:62-64 | a socket that refuses sends refuses them in every run from there |
| `WinSender.HangupRefuses` | src/tcp_socket.cpp:62-64 | a socket just activated admits sends, and in no run does one that has hung up admit any |
| `WinSender.GracefulCloseFinishes` | src/socket_object.cpp:45-49 | after a graceful close with data pending, unless somebody forces a close or the socket hangs up, a step closes it with delivered equal to accepted and no write in flight, within as many completions with bytes as there are bytes queued or still joining the queue |
| `WinSender.CompletesIff` | src/socket_object.cpp:103-110 | the callback is called once exactly when handling a completion leaves nothing queued, and the handling closes the socket exactly if the flag is then up |
| `WinSender.SubmitsFullWindow` | src/tcp_socket.cpp:132-142 | whenever a write is submitted it shows the front of main, all of it or 64K |
| `WinSender.WinRunsAreBehaviours` | src/tcp_socket.cpp:132-162 | the states of every run without such sends, one after the other, are a behaviour of the abstract sender |
| `WinSender.TraceAt` | src/socket_object.cpp:96-111 | the i-th state of that behaviour is what the run shows after its first i steps |
| `WinSender.EmptySendDuplicates` | src/tcp_socket.cpp:66-70 | after a send of nothing on an idle queue there is a run of ordinary steps, completions in order, that accepts one byte and delivers it twice |
| `WinSender.SendSafeIff` | src/tcp_socket.cpp:62-76 | every ordinary continuation after a send keeps the stream if and only if the send had bytes or the queue was not empty |
| `Receiver.FillKeeps` | src/tcp_socket.cpp:308-316 | when the kernel fills the bind buffer nothing in it was still waiting |
| `Receiver.CopyKeeps` | src/socket_object.cpp:86-87 | the copy into recv_buffer always returns and loses nothing |
| `Receiver.StepKeeps` | src/socket_object.cpp:86-94 | every step keeps the invariant, before and after the chain ends |
| `Receiver.ReceiveIntegrity` | src/socket_object.cpp:86-94 | in every run the bytes received, first from the peer and then from descriptor 0, equal consumed ++ recv_buffer ++ unhandled bytes of the bind buffer, and after the hang-up what was consumed is a prefix of them; there are none from descriptor 0 if and only if no read submitted without the descriptor was filled; until the hang-up exactly one read, of 64K, is in flight or about to be submitted, and then none; all reads and all changes to recv_buffer belong to the ring of the first read; no copy hangs |
| `Receiver.BindIsCopiedFirst` | src/socket_object.cpp:87-89 | the kernel may overwrite the bind buffer only once all of it has been copied out |
| `Receiver.EndedIsQuiet` | src/tcp_socket.cpp:281-286 | after io_shutdown no step of the receive chain is enabled, so no push reaches the destroyed buffer |
| `TcpServers.TcpServer.SubmitAccept` | src/tcp_server.cpp:156-162 | one accept request for this server |
| `TcpServers.TcpServer.Stop` | src/tcp_server.cpp:148-154 | one shutdown request for this server |
| `TcpServers.TcpServer.CloseHandler` | src/io_service.cpp:446-453 | the listening descriptor is gone afterwards |
| `TcpServers.TcpServer.IoAccepting` | src/tcp_server.cpp:164-178 | the new socket is made from the completion's descriptor on the server's heap and service and stores the address in the slot, then the next accept goes out, then the socket is activated and its read submitted |
| `TcpServers.AcceptsMatchConnections` | src/tcp_server.cpp:156-178 | in every run the sockets are the connections in order of arrival, each with the descriptor of one connection and the address the kernel wrote for that same one; until an accept fails, exactly one is outstanding whenever no handler runs, always on the same ring |
| `StartStop.StopKeeps` | src/io_service.cpp:276-287 | stop posts one message to every ring, and there is one ring per thread |
| `StartStop.StartAndStop` | src/io_service.cpp:263-287 | over every interleaving: the counter never exceeds the registered rings before a stop, so when run has returned every index submit may draw is in range; after a stop the threads in their loop are those with a message; when all have ended the counter is zero |
| `StartStop.StopCompletes` | src/io_service.cpp:373-410 | after a stop some thread can go on until all have ended, and no run goes on for more than two steps per thread, so every loop exits and the counter ends at zero |
| `Framing.DrainExtends` | examples/chatserver/receiver.cpp:38-57 | bytes that arrive later change nothing about frames already complete |
| `Framing.ReceiveAllSkips` | examples/chatserver/receiver.cpp:34-58 | whatever the chunks and whatever the bytes, the frames taken out and the proper ones still in the buffer are together all proper frames of the stream |
| `Framing.OneChunkIsLeast` | examples/chatserver/receiver.cpp:34-58 | one receive event with all bytes takes out a prefix of what any chunking takes out |
| `Framing.NothingLostIff` | examples/chatclient/main.cpp:10-28 | for any bytes and any one cut of them: all proper frames are taken out if and only if for every foreign frame with a proper one behind it enough receive events follow before the last |
| `Framing.ChunkingIsInvisibleIff` | examples/chatclient/main.cpp:10-28 | for any bytes: all cuts into reads of 1 to 64K bytes give the same frames, namely all proper ones, if and only if every foreign frame with a proper one behind it has 64K bytes behind it for each such foreign frame from it on |
| `Framing.ShortStreams` | examples/chatclient/main.cpp:10-28 | for at most 64K bytes, cut by size alone: the same if and only if no foreign frame stands before a proper one |
| `Framing.FramingRoundTrip` | examples/chatserver/receiver.cpp:38-57 | for every list of well-formed frames and every cut of a prefix of their bytes, the loop takes out exactly the whole frames, byte for byte in order, and holds a strict prefix of the next |
| `Chat.LeRoundTrip` | examples/chatserver/scheme.h:13-29 | a size field read back is the size written, while it fits its width |
| `Chat.RequestRoundTrip` | examples/chatclient/main.cpp:62-72 | a request frame is well formed; a text of at most 1000 bytes comes back whole with its length, of a longer one the first 1000 bytes |
| `Chat.ResponseRoundTrip` | examples/chatserver/client.cpp:18-35 | a response frame is well formed and gives back name, length and text |
| `Chat.EncodeRequest` | examples/chatclient/main.cpp:62-72 | the encoder's array holds exactly that request frame in its first size bytes |
| `Chat.BuildResponse` | examples/chatserver/client.cpp:18-35 | says whether header, text and terminator fit the array, and if so the array holds exactly that response frame, followed by a zero that is not sent |
| `Chat.ClientNameFits` | examples/chatserver/client.cpp:13-16 | the name given to a client always fits its field with a terminator |
| `Chat.ClientNamesDiffer` | examples/chatserver/client.cpp:11-16 | clients with different numbers have different names: the number can be read back from the name |
| `Chat.TakeFrame` | examples/chatserver/receiver.cpp:41-49 | one turn of the loop takes the next frame out and shrinks the buffer, or stops for the reason the bytes dictate |
| `Chat.OnReceive` | examples/chatserver/receiver.cpp:34-58 | the loop ends and takes out of the real buffer exactly the frames `Framing.Drain` lists, for server and client |
| `ClientPools.Client.Send` | examples/chatserver/client.cpp:41-43 | the client's socket queues the message exactly if it is up and not closing; exactly if it was idle as well, one write of the message, now the whole of main, is issued with this socket as its handler, and otherwise nothing; no block of anybody else is touched |
| `ClientPools.SentAsks` | src/tcp_socket.cpp:250-255 | a send on an idle socket issues one write, whose view is main's block and holds just the message; on any other it issues nothing |
| `ClientPools.ClientPool.Add` | examples/chatserver/pool.cpp:18-21 | a new id gets the client; an id already present keeps the one it has |
| `ClientPools.ClientPool.Remove` | examples/chatserver/pool.cpp:23-26 | that id is gone and nothing else |
| `ClientPools.ClientPool.ChatAll` | examples/chatserver/pool.cpp:42-48 | every registered socket that is up queues the message once behind what it had, every other one keeps its queue, and all sockets stay valid on their shared heap; each socket that was idle issues one write of the message, in some order, and nothing else is issued |
| `Broadcast.EachClientHasOneSegment` | examples/chatserver/pool.cpp:42-48 | in every run each client has accepted one contiguous piece of the log; between broadcasts, one that is still up has all of it from its first message on |
| `Broadcast.CommonBroadcastsAgree` | examples/chatserver/pool.cpp:42-48 | the broadcasts two clients share form one block that stands in both streams contiguously and in log order |
| `Broadcast.EveryoneIsTold` | examples/chatserver/pool.cpp:42-48 | in every run of a broadcast to its end a client takes the message once if it was registered at the beginning and is found up when its turn comes, and otherwise not at all |
| `Broadcast.NextTurn` | examples/chatserver/pool.cpp:42-48 | a broadcast in progress that is not stuck can take its next turn |
| `ChatServers.TurnsEnd` | examples/chatserver/pool.cpp:42-48 | a broadcast that takes as many turns as it has clients and pushes to go has released the lock, whatever else happens in between |
| `Broadcast.NeverStuckAtHome` | src/io_service.cpp:313-317 | in a run in which all clients and all broadcasts share one ring no broadcast is ever stuck in a push into destroyed buffers |
| `ChatServers.ServerRuns` | examples/chatserver/pool.cpp:42-48 | in every run of the whole server the broadcast makes a run of the hall, each socket makes a run of the sender, and the bytes a socket accepted are the messages its client accepted |
| `ChatServers.SocketsAreFree` | src/io_service.cpp:402-462 | joining the parts takes nothing away from a socket but what the thread of a busy ring would have to do itself: kernel transfers, closes, and completions on idle rings stay possible whatever the broadcast is doing |
| `ChatServers.SendReturns` | examples/chatserver/client.cpp:41-43 | a broadcast's send that has passed its tests returns, in every run |
| `ChatServers.AllOnOneRing` | src/tcp_server.cpp:164-178 | in every run of the server all reads, receive callbacks and hang-ups of all clients, and every broadcast, run on the ring to which the first accept was submitted |
| `ChatServers.EndIsPossible` | src/io_service.cpp:424-428 | a client's hang-up is never handled during a broadcast, and otherwise can be |
| `ChatServers.BroadcastsEnd` | examples/chatserver/pool.cpp:42-48 | in every run of the server no broadcast is stuck, its next turn can be taken, and it has released the lock after at most two turns per client and one more, whatever else happens in between |
| `EndToEnd.FramesArrive` | src/socket_object.cpp:86-111 | for every run of a sender that accepted these frames and every run of a receiver, up or hung up, the loop run after each piece takes out the first k frames and holds a strict prefix of the next, all of them once all bytes are through; what was consumed is a prefix of these bytes; if the receiver's callbacks are that loop, its buffer holds just that rest and it has consumed exactly the k frames |
| `EndToEnd.LoopKeeps` | src/socket_object.cpp:86-94 | in every run whose callbacks are the receive loop, the real buffer and the loop run piece by piece stay in step |
| `EndToEnd.RequestsArrive` | examples/chatclient/main.cpp:62-72 | the server reads out of the frames it takes what clients typed, in order: texts of at most 1000 bytes whole, of longer ones the first 1000 bytes |
| `EndToEnd.BroadcastsArrive` | examples/chatserver/pool.cpp:42-48 | in every run of the whole server, a client takes out of its socket a contiguous piece of the broadcast log, starting with the first message its socket accepted, and holds a strict prefix of the next; once all bytes are through, all that its socket accepted |

## Left out

- UDP sockets and servers: datagrams are coalesced in one byte buffer and sent to the address of the previous completion, so no per-message guarantee exists to prove.
- Real sockets, options, `bind`, `listen`, `connect`, address resolution and printable addresses: calls into code outside the repository.
- The Windows receive side, request queues, buffer registration and address pool: the Windows model is the sender alone.
- `io_uring_get_sqe` is taken to succeed; on failure the library reports an error and does not return the context.
- Allocation is taken to succeed, `size_t` is an unbounded natural number, and `realloc` always moves its block (staying in place is the easier case for whoever holds the pointer).
- The C++ memory model, spin locks and thread generator: each locked region is one step, and the flags a send reads without the lock are read in a step of their own.
- Callbacks are counted, or modelled as later steps; a callback that re-enters the socket under its lock is not modelled.
- Activating a socket again after it was shut down, and `io_buffer::offset(size_t)`, which lets a caller set the content length at will.
- Contexts are identified by the order of their creation, not by address; their UDP fields are not modelled.
- `leave_all` (its closes are the steps `CloseBy`, without the pool's lock), `wait_for_leave`, console loops, signals and everything around the chat programs' streams.
- The chat server on Windows: `ChatServers` is the Linux program.
- Reading the chat text as a C string out of the scratch array, whose later bytes may stem from an earlier frame: the guarantees are about the bytes of the frame.
- Sender.StreamIntegrity: holds up to `io_shutdown`, which frees the buffers without the lock; `Sender.HangupEndsViews` and `Sender.HangupIsFinal` say what holds from there on.
- Sender.InFlightMemoryStable: holds up to `io_shutdown`, for the same reason.
- TcpSockets.TcpSocket.IoReceived: ends before the receive callback, which is modelled by the steps of `Receiver` and by `Chat.OnReceive`.
- TcpSockets.TcpSocket.SetRemoteInfo: the address is an opaque byte string; the split by family and the port are not modelled.
- StartStop.StartAndStop: `run`, `stop` and the thread body are steps of one state machine, because what matters is how they interleave; the three loops over rings and time are not methods, and `run` refusing a concurrency below one is not modelled.
- IoServices.IoService.Submit: the choice of ring is modelled, the preparation of the kernel entry is not; a request already carries its kind and view. That the entry takes the descriptor of that moment is in the steps of `Sender` and `Receiver`, which read it and hand it to the kernel in one step.
- WinSender.WinRunsAreBehaviours: excludes sends of no bytes on an idle queue, because the property is false for them; `WinSender.SendSafeIff` shows that nothing else need be excluded.
- Chat.BuildResponse: where header, text and terminator exceed 1024 bytes the original writes beyond its array; the model stops with `fits` false. The client may send up to 1000 bytes of text, so the programs rely on shorter lines.
- Chat.TakeFrame: where the original would copy beyond its scratch array, or turn for ever on a frame of size zero, the model stops with the outcome `Overrun` or `Spinning`.
- Framing.ChunkingIsInvisibleIff: exact for the client's loop; the server also forces the connection closed at a foreign frame, after which later reads may never come.
- WinSender.GracefulCloseFinishes: the tests of a send are no step of the Windows system; a send may join the queue at any time, and its bytes count among those to go.
- WinSender.WinRefines: a write submitted after the socket was closed may still complete in the model; Registered I/O refuses it.
- Chat.OnReceive: hands out the frames; what the server then does with a frame (`chat` unless its text is empty) and with a foreign one (a forced close) is not called from the loop.
- TcpSockets.TcpSocket.Handle: accept completions and shutdowns of a server are `TcpServers.TcpServer.IoAccepting` and `TcpServers.TcpServer.CloseHandler`.
- TcpSockets.TcpSocket.CloseHandler: one handler on its own, and the socket's branch alone; several at once are in `Descriptors`, the server's branch is `TcpServers.TcpServer.CloseHandler`.
- TcpSockets.TcpSocket.Dispatch: handles one completion of this socket's context; the stop message that ends the loop is in `StartStop`.
- TcpServers.TcpServer.IoAccepting: the connect callback, which runs between storing the address and the next accept, is not modelled.
- Engines.EngineRuns: handling a completion is one step, and which bytes the kernel takes is left open; the finer stages are in `Sender` and `Receiver`.
- EndToEnd.FramesArrive: the network is taken to carry a prefix of the sent bytes in order, which is what TCP promises, and no read of the receiver to have been filled from descriptor 0 (`Carried`).
