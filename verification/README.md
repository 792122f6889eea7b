# muzi in Dafny

muzi is a C++ network library built around reactor event loops. This project models the parts
of it that carry state through many steps and proves what they are for. Each file follows one
component of the library.

| file | component | what is proved about it |
|---|---|---|
| `Blocks.dfy` | block storage | lists of blocks as one byte string, cursors in it, readv and writev vectors over it |
| `ChainBuffer.dfy` | the connection buffer | every sequence of operations is one that a plain byte queue could have made, in blocks that are used again |
| `Timers.dfy`, `TimerQueue.dfy` | the timer queue | over every run: what each batch runs and leaves behind, containers agree, cancellation holds, the kernel timer is set in time |
| `FixedBuffer.dfy`, `AsyncOutputer.dfy` | the asynchronous log | in any interleaving nothing is cut or reordered and exactly the tails of batches of more than 25 buffers are lost; queued buffers are full but for one per flush; the writer ends; buffer recycling never meets a null pointer |
| `EventLoop.dfy` | the functor queue | functors run once, in order and by the end of the next turn; exactly when a wake-up is lost; no quit is missed |
| `TcpConnection.dfy`, `ConnectionState.dfy` | a connection's output | the exact stream of every run and when it is right, write interest exactly while bytes are queued, a half-close that happens, after the last byte |
| `TcpServer.dfy` | connection lifecycle | every close, erase and removal is accounted for, in any interleaving of loops; requests to close are carried out; exactly when a connection is closed twice, and what that leads to |
| `EpollPoller.dfy` | channels and epoll | which epoll_ctl call every operation makes, that it is legal, and three records in step after each |
| `OldBuffer.dfy` | the older buffer | iterator arithmetic, making room without touching a readable byte |
| `LogStream.dfy` | integer printing | canonical numerals that read back as the number printed |

Conventions of the model:

- Classes that the library updates in place are classes here; their abstract value is a ghost
  field or function that every method keeps up to date. Protocols between threads are step
  functions on a state, one step per lock section or system call, and a run is any sequence of
  steps.
- A system call's result is a parameter: what the kernel has ready, how much it takes, an
  errno. It is cut down to what the call can return, so all outcomes are covered.
- A `std::list` iterator is the position of its node. A `unique_ptr` is what it owns, or null.
  Timer objects live in an explicit heap from addresses to timers, so that creation,
  destruction and the order by address are visible.
- A timer's callback, a functor or a run is an arbitrary list of the actions it performs. A
  method that makes a whole run returns the states it goes through as a ghost trace, each tied
  to the one before by what the next input does.

Where the code differs from its own comments or from what one would expect, the model follows
the code:

- `TcpConnection::SendInLoop` appends `len` bytes instead of `remaining` after a partial direct
  write (`muzi/net/tcp_connection.cc:181`), so it reads past the end of the message. The stream
  of bytes is right if and only if no direct write takes a proper part of a message.
- `TcpConnection::Send(Buffer &)` is documented to take the data out of the buffer; it does not.
- A functor that the loop thread queues before `Loop()` starts wakes nobody up.
- A connection is closed twice when a close event reaches it after it was closed in the same
  poll round: by another path of the same dispatch (`muzi/net/channel.cc:56-70`), or by a callback
  of another channel of that round (`muzi/net/event_loop.cc:109-112`).
- It is also closed twice in a later round if it wanted no events when it was closed:
  `DisableAll` on a channel whose status is deleted adds the descriptor to epoll again, with an
  empty mask (`muzi/net/poller/epoll_poller.cc:116-134`), and a hang-up is reported all the same.
  A connection closed more than once may get an illegal epoll_ctl call, which ends the process:
  in an I/O loop at the second removal, after an even number of closes, or an odd one if the
  connection wanted no events at the first; in the base loop at the third close, or the second
  if it wanted no events at the first. Otherwise the calls stay legal.
- `TcpConnection::SendInLoop` still takes messages on after the half-close; none of them is sent.
- `ChainBuffer::UnWrite` can leave the write cursor at the end of a block, where the buffer's
  invariant does not hold until the next byte is appended.
- The epoll poller keeps a removed channel's status, so an update after the removal is an
  illegal call if the channel was added, and leaves the kernel out of step with the map if it
  was deleted.
- A connection that sends an empty buffer with nothing queued turns write interest on for nothing.
- `AsyncOutputer::Flush` queues even an empty buffer, so that enough calls of it between two
  swaps make the writer drop messages.

## Model

| member | source | states |
|---|---|---|
| `Blocks.Readv` | muzi/net/chain_buffer.cc:33 | the kernel fills the vectors in order with the bytes it has and touches no other byte |
| `Blocks.ReadBlocks` | muzi/net/chain_buffer.cc:21-33 | vectors over the space behind a cursor plus an overflow area receive the bytes as one string |
| `Blocks.GatherCovers` | muzi/net/chain_buffer.cc:21-27 | vectors built block by block cover exactly the space in front of the cursor |
| `ChainBuffers.ChainBuffer.constructor` | muzi/net/chain_buffer.h:25-32 | one block, empty content, invariant established |
| `ChainBuffers.ChainBuffer.SlowReadableBytes` | muzi/net/chain_buffer.h:34-45 | the slow count equals the cached count |
| `ChainBuffers.ChainBuffer.WritableBytes` | muzi/net/chain_buffer.h:47-51 | read offset, readable and writable bytes add up to the storage, and there is always a writable byte |
| `ChainBuffers.ChainBuffer.Retrive` | muzi/net/chain_buffer.h:53-75 | drops exactly the first len bytes; the block list is only rotated, by the number of blocks used up |
| `ChainBuffers.ChainBuffer.Rotate` | muzi/net/chain_buffer.h:66-73 | splicing the used block to the tail drops the rest of that block and keeps every other byte |
| `ChainBuffers.ChainBuffer.RetriveAll` | muzi/net/chain_buffer.h:77-84 | empties the queue, keeps the blocks, and all of them are writable |
| `ChainBuffers.ChainBuffer.PeekAsString` | muzi/net/chain_buffer.h:86-116 | returns the first len bytes across any number of blocks |
| `ChainBuffers.ChainBuffer.RetriveAsString` | muzi/net/chain_buffer.h:123-128 | what is returned followed by what remains is the old content |
| `ChainBuffers.ChainBuffer.RetriveAllAsString` | muzi/net/chain_buffer.h:130-135 | returns the whole content and empties the buffer |
| `ChainBuffers.ChainBuffer.Append` | muzi/net/chain_buffer.h:137-167 | adds the data at the back; blocks are added at the tail only, exactly as many as the bytes from the list's start need beyond those there; repairs a cursor left at a block end |
| `ChainBuffers.ChainBuffer.AppendBuffer` | muzi/net/chain_buffer.h:184-195 | adds the other buffer's content at the back, with as few new blocks as Append, and leaves the other buffer alone |
| `ChainBuffers.ChainBuffer.UnWrite` | muzi/net/chain_buffer.h:197-202 | gives up the last len bytes, unless that steps before the first block; the invariant survives if and only if the cursor does not land on a block boundary |
| `ChainBuffers.ChainBuffer.HasWrite` | muzi/net/chain_buffer.h:204-209 | the len bytes standing behind the cursor become readable; the invariant survives if and only if they are not all the writable bytes |
| `ChainBuffers.ChainBuffer.Shrink` | muzi/net/chain_buffer.h:211-219 | no readable byte changes; when it frees anything, more than reserve and at most one block more stays writable |
| `ChainBuffers.ChainBuffer.Forward` | muzi/net/chain_buffer.h:228-245 | the cursor is len bytes further on, and inside the list if and only if bytes remain behind it |
| `ChainBuffers.ChainBuffer.BackWard` | muzi/net/chain_buffer.h:247-264 | the cursor is len bytes back, never at the start of a block after a real move, and inside the list if and only if bytes remain before it |
| `ChainBuffers.ChainBuffer.ReadFd` | muzi/net/chain_buffer.cc:13-64 | for every count readv may return, content is the old content followed by those bytes in order, with as few new blocks as Append; an error changes nothing |
| `ChainBuffers.ChainBuffer.ReadVec` | muzi/net/chain_buffer.cc:17-27 | at most 15 vectors, covering the writable blocks from the cursor on |
| `ChainBuffers.ChainBuffer.Receive` | muzi/net/chain_buffer.cc:29-33 | the bytes stand behind the cursor and the overflow in the extra area |
| `ChainBuffers.ChainBuffer.Commit` | muzi/net/chain_buffer.cc:39-62 | counting the block bytes and appending the overflow extends the content by all bytes |
| `ChainBuffers.ChainBuffer.MoveTo` | muzi/net/chain_buffer.cc:43-54 | the cursor steps over the filled blocks, to the next one or to a new one |
| `ChainBuffers.ChainBuffer.WriteFd` | muzi/net/chain_buffer.cc:66-102 | sent bytes followed by the remaining content are the old content, for every count writev may return |
| `ChainBuffers.ChainBuffer.WriteVec` | muzi/net/chain_buffer.cc:68-88 | at most 16 vectors, which gather a prefix of the content |
| `ChainBuffers.ChainBuffer.Perform` | muzi/net/chain_buffer.h:53-219 | any sequence of operations, appending other buffers included, with any kernel answers, is a run of a plain byte queue with the same outputs; the list never grows beyond one block more than the bytes ever held, and only Shrink shortens it |
| `Timers.LessStrictTotal` | muzi/net/timer_queue.h:38-61 | the entry comparison is a strict total order on live timers |
| `Timers.InsertOrdered` | muzi/net/timer_queue.cc:213-217 | inserting at the lower bound keeps the order and adds exactly the new timer |
| `Timers.LookupExact` | muzi/net/timer_queue.cc:119-120 | a lookup by order finds a timer exactly when it is stored, and finds that timer |
| `Timers.DueBatch` | muzi/net/timer_queue.cc:160-176 | the front of the set up to the upper bound is all timers due, once each, in order of expiration |
| `Timers.AtMostOnceMore` | muzi/net/timer_queue.cc:124-131 | in an honest history a cancelled timer runs at most once more, in the batch then executing |
| `TimerQueues.TimerQueue.constructor` | muzi/net/timer_queue.cc:52-60 | an empty queue satisfies the invariant |
| `TimerQueues.TimerQueue.UpperBound` | muzi/net/timer_queue.cc:161-162 | splits the set into due and not due |
| `TimerQueues.TimerQueue.Insert` | muzi/net/timer_queue.cc:209-228 | both containers gain the timer and still agree; reports whether it became the first |
| `TimerQueues.TimerQueue.AddTimerInLoop` | muzi/net/timer_queue.cc:101-109 | stores the timer, keeps every invariant, and sets the kernel timer for it exactly when it comes first |
| `TimerQueues.TimerQueue.CancelTimerInLoop` | muzi/net/timer_queue.cc:111-134 | a stored timer leaves both containers and is destroyed; one of the executing batch is noted; nothing else changes |
| `TimerQueues.TimerQueue.EraseStored` | muzi/net/timer_queue.cc:115-123 | the lookup's assertion holds and the containers still agree after the erasure |
| `TimerQueues.TimerQueue.ResetTimerFd` | muzi/net/timer_queue.cc:20-37 | sets the timer for the time given, or 10 microseconds ahead if that has passed |
| `TimerQueues.TimerQueue.GetExpired` | muzi/net/timer_queue.cc:158-178 | exactly the due timers move to the expired list, in order, and leave both containers |
| `Timers.RestartExact` | muzi/net/timer.cc:7-10 | a restarted timer goes off one interval after now, in whole microseconds |
| `TimerQueues.TimerQueue.Reinsert` | muzi/net/timer_queue.cc:185-192 | ownership of a repeating timer goes back to the set, to go off one interval of seconds after now |
| `TimerQueues.TimerQueue.ResetTimer` | muzi/net/timer_queue.cc:180-207 | repeating timers not cancelled are stored again, the others of the batch are destroyed, the rest stay, the kernel timer is set |
| `TimerQueues.TimerQueue.SetAlarm` | muzi/net/timer_queue.cc:198-206 | the kernel timer is set for the first stored timer, or left alone if there is none |
| `TimerQueues.TimerQueue.RunTimer` | muzi/net/timer_queue.cc:146-149 | one callback, performing any additions and cancellations, keeps every invariant, runs once and has exactly the effect of its actions |
| `TimerQueues.TimerQueue.Perform` | muzi/net/timer_queue.cc:101-134 | exactly what an addition or a cancellation does to the live timers, the id map and the history; the order of runs does not change |
| `TimerQueues.TimerQueue.HandleRead` | muzi/net/timer_queue.cc:136-156 | runs exactly the timers due at entry in order, with exactly the effects of their callbacks; repeating ones not cancelled are stored again one interval later, every other timer is as the callbacks left it; the kernel timer is read and set for the first timer |
| `TimerQueues.TimerQueue.Drive` | muzi/net/timer_queue.cc:101-228 | over every run, input by input: what the input does, and in every state agreement and single ownership, kernel timer in time, cancelled timers run at most once more and never come back |
| `FixedBuffers.FixedBuffer.constructor` | muzi/base/fixed_buffer.h:17 | an empty buffer of the given size |
| `FixedBuffers.FixedBuffer.Add` | muzi/base/fixed_buffer.h:41-44 | the bytes that stand behind the end are appended to the contents and taken from the room left |
| `FixedBuffers.FixedBuffer.Clear` | muzi/base/fixed_buffer.h:47-50 | empties the buffer |
| `FixedBuffers.FixedBuffer.Append` | muzi/base/fixed_buffer.h:52-57 | appends a front part of the message: all of it, unless that fills the buffer up to its last byte |
| `AsyncOutputers.AsyncOutputer.constructor` | muzi/base/async_outputer.cc:14-26 | all four buffers are there and empty when the writer starts |
| `AsyncOutputers.AsyncOutputer.Output` | muzi/base/async_outputer.cc:46-62 | the message joins the stream whole; a buffer is exchanged exactly when the message does not fit |
| `AsyncOutputers.OutputInv` | muzi/base/async_outputer.cc:46-62 | a message is never cut: it fits, or the buffer is a fresh one |
| `AsyncOutputers.AsyncOutputer.Exchange` | muzi/base/async_outputer.cc:38-42 | queueing the current buffer loses nothing and leaves a current buffer that is not null |
| `AsyncOutputers.AsyncOutputer.Flush` | muzi/base/async_outputer.cc:35-44 | everything output so far is queued, nothing is lost, the spare buffer is taken |
| `AsyncOutputers.AsyncOutputer.Stop` | muzi/base/async_outputer.cc:28-33 | clears the running flag; marks what had been output by then |
| `AsyncOutputers.AsyncOutputer.SwapBuffers` | muzi/base/async_outputer.cc:82-91 | the batch is the queue followed by the current buffer, and both spare buffers were there to take their place |
| `AsyncOutputers.AsyncOutputer.DropExcess` | muzi/base/async_outputer.cc:93-99 | exactly the buffers behind the second of a batch of more than 25 are dropped |
| `AsyncOutputers.AsyncOutputer.WriteOne` | muzi/base/async_outputer.cc:101-105 | the next buffer's contents move from the batch to the end of the file |
| `AsyncOutputers.AsyncOutputer.Recycle` | muzi/base/async_outputer.cc:107-121 | back() is never taken of an empty vector and both spare buffers are there and empty again, also after a drop |
| `AsyncOutputers.AsyncOutputer.WriterStep` | muzi/base/async_outputer.cc:64-125 | each atomic step of the writer is the one the protocol names for its position and keeps the invariants; it waits exactly when nothing is queued and returns only when told to |
| `AsyncOutputers.NextInv` | muzi/base/async_outputer.cc:28-125 | every step of every thread keeps pointers sound, every byte accounted for and the last sweep complete |
| `AsyncOutputers.AsyncOutputer.Execute` | muzi/base/async_outputer.cc:28-125 | the code refines the protocol, step by step, over every interleaving |
| `AsyncOutputers.HeldInEveryRun` | muzi/base/async_outputer.cc:46-105 | in every interleaving, file, batch, queue and current buffer hold all messages in lock order less exactly the dropped parts |
| `AsyncOutputers.AllHeldIff` | muzi/base/async_outputer.cc:93-99 | everything is held, whole and in order, if and only if no batch of more than 25 buffers had bytes behind its second one |
| `AsyncOutputers.ReturnedSweeps` | muzi/base/async_outputer.cc:75-125 | when Run has returned, everything output before Stop was swapped out and is in the file, less the dropped parts |
| `AsyncOutputers.OneShortPerFlush` | muzi/base/async_outputer.cc:46-62 | in every run the queued buffers hold more than 4096 * 1000 - 4096 bytes each, except at most one per Flush |
| `AsyncOutputers.LightLoadsKept` | muzi/base/async_outputer.cc:46-99 | without Flush, nothing is lost while fewer than 25 * (4096 * 1000 - 4096) bytes are output between two swaps |
| `AsyncOutputers.WriterReturns` | muzi/base/async_outputer.cc:75-125 | once the flag is cleared, finitely many steps of its own take the writer out of Run |
| `AsyncOutputers.MessageLost` | muzi/base/async_outputer.cc:35-44 | a schedule of one non-empty message and 26 flushes loses the message |
| `EventLoops.StepInv` | muzi/net/event_loop.cc:94-220 | every step of every thread keeps the order of functors and the wake-up invariant |
| `EventLoops.ExecutedInPushOrder` | muzi/net/event_loop.cc:177-220 | in every run, executed functors, rest of the batch and queue are the pushes in lock order |
| `EventLoops.CallsAreExecuted` | muzi/net/event_loop.cc:177-220 | in every run, executed functors, rest of the batch and queue are what the threads' calls pushed, in order |
| `EventLoops.QuitStops` | muzi/net/event_loop.cc:122-138 | a quit of a running loop is not missed: a wake-up is on its way if the loop is at Poll, and the loop has ended once a turn completes |
| `EventLoops.LostWakeupExactly` | muzi/net/event_loop.cc:94-188 | at Poll with functors queued, a wake-up is on its way, except in exactly one case before the first Poll returns |
| `EventLoops.LostWakeupHappens` | muzi/net/event_loop.cc:177-188 | that case is reached by queueing a functor in the loop thread and then starting the loop |
| `EventLoops.TurnDelivers` | muzi/net/event_loop.cc:103-115 | in every run, whatever other threads and functors do: once the loop has come from Poll through ExecuteFunctors, everything queued at that Poll has been executed |
| `EventLoops.TurnAlone` | muzi/net/event_loop.cc:103-115 | the loop thread completes a turn without help and is back at Poll with nothing queued |
| `EventLoops.EventLoop.WakeUp` | muzi/net/event_loop.cc:161-169 | after the wake-up that belongs to a push, what is queued is not lost and the protocol invariant holds |
| `EventLoops.EventLoop.HandleWakeupRead` | muzi/net/event_loop.cc:171-175 | the counter is cleared and the protocol invariant kept |
| `EventLoops.EventLoop.Quit` | muzi/net/event_loop.cc:122-138 | the flag is set in a running loop only, and another thread wakes the loop once |
| `EventLoops.EventLoop.QueueInLoop` | muzi/net/event_loop.cc:177-188 | the functor is queued last; the loop is woken by other threads and by functors being executed, and in no other case |
| `EventLoops.EventLoop.ExecuteFunctors` | muzi/net/event_loop.cc:204-220 | everything queued at entry is executed in order; what the functors queue waits and will wake the loop |
| `TcpConnections.TcpConnection.EstablishConnection` | muzi/net/tcp_connection.cc:219-235 | a connecting connection becomes connected and wants to read |
| `TcpConnections.TcpConnection.Write` | muzi/net/socket_ops.cc:307-315 | the kernel takes a prefix, or the call fails; after the half-close it always fails |
| `TcpConnections.TcpConnection.WriteDirectly` | muzi/net/tcp_connection.cc:138-162 | exactly when nothing is queued and no write interest is set, the kernel gets a prefix of the message |
| `TcpConnections.TcpConnection.Buffer` | muzi/net/tcp_connection.cc:164-186 | the data is queued behind what is queued and write interest is on |
| `TcpConnections.TcpConnection.SendInLoop` | muzi/net/tcp_connection.cc:126-187 | the stream grows by the message and by as many bytes behind it as a partial direct write took; nothing is written past waiting bytes |
| `TcpConnections.TcpConnection.SendBufferInLoop` | muzi/net/tcp_connection.cc:96-124 | the stream grows by the buffer's content, which stays in the buffer |
| `TcpConnections.TcpConnection.HandleWrite` | muzi/net/tcp_connection.cc:361-397 | the front of the buffer goes out; interest ends with the last byte, and then a pending half-close happens |
| `TcpConnections.TcpConnection.ShutDownInLoop` | muzi/net/tcp_connection.cc:82-89 | a half-close of a connection that is not closed happens only with an empty output buffer |
| `TcpConnections.TcpConnection.HandleClose` | muzi/net/tcp_connection.cc:399-411 | the connection is disconnected and wants no events |
| `TcpConnections.TcpConnection.Run` | muzi/net/tcp_connection.cc:82-411 | over every run, event by event: what the event does; the exact stream; it is the accepted messages if and only if no direct write took a proper part of one; queued bytes imply write interest; no half-close overtakes queued bytes |
| `TcpConnections.StepStream` | muzi/net/tcp_connection.cc:126-187 | each event adds to the stream the message and as many bytes from behind it as a partial direct write took |
| `TcpConnections.StreamExact` | muzi/net/tcp_connection.cc:126-397 | in every run the stream is every message followed by what was read from behind it, in order |
| `TcpConnections.ConservedIff` | muzi/net/tcp_connection.cc:181 | in every run the stream is the accepted messages if and only if no direct write took a proper part of a message |
| `TcpConnections.ShutsEmpty` | muzi/net/tcp_connection.cc:82-89 | in every run, queued bytes imply write interest at every moment and SHUT_WR finds the buffer empty |
| `TcpConnections.ShutAfterAll` | muzi/net/tcp_connection.cc:361-397 | at the half-close the kernel has exactly the accepted messages if and only if no direct write was partial |
| `TcpConnections.HalfCloseHappens` | muzi/net/tcp_connection.cc:210-217 | in every run, after a shutdown of a connected connection and its functor, SHUT_WR has been issued whenever nothing is queued, unless the connection was closed |
| `TcpConnections.InterestExactIff` | muzi/net/tcp_connection.cc:96-187 | in every run, write interest is on exactly while bytes are queued if and only if no empty buffer is sent with nothing queued |
| `TcpConnections.AcceptedInVain` | muzi/net/tcp_connection.cc:126-187 | in every run after a half-close, what is accepted stays in the buffer, in order, with write interest on, and no byte reaches the kernel |
| `TcpConnections.PartialWriteOverruns` | muzi/net/tcp_connection.cc:181 | a connection that sends two bytes, one of them directly, puts a third byte on the stream |
| `TcpServers.AcceptInv` | muzi/net/tcp_server.cc:70-92 | a new connection enters the table once, with its establishment on the way |
| `TcpServers.HandleCloseInv` | muzi/net/tcp_connection.cc:399-411 | a close puts exactly one removal on the way and keeps the books of channels |
| `TcpServers.WatchedClose` | muzi/net/tcp_connection.cc:405-406 | every close turns the channel over: out of the kernel, or into it if it was not there; exactly when that call is illegal |
| `TcpServers.ExecuteInv` | muzi/net/tcp_server.cc:94-120 | every functor keeps the books, run at once or from a queue |
| `TcpServers.NextInv` | muzi/net/tcp_server.cc:70-120 | every action of every thread keeps the books of every connection |
| `TcpServers.BalancedEstablish` | muzi/net/tcp_connection.cc:219-228 | the assertion that the connection is still connecting holds |
| `TcpServers.BalancedDestroy` | muzi/net/tcp_connection.cc:239-249 | a connection that is destroyed has been established and closed; its removal is accounted for |
| `TcpServers.NeverReopened` | muzi/net/tcp_connection.cc:219-249 | over every run a disconnected connection stays disconnected |
| `TcpServers.LifeInOrder` | muzi/net/tcp_server.cc:70-120 | over every run: removals are at most erases, erases at most closes, and only established connections close |
| `TcpServers.ForceCloseHappens` | muzi/net/tcp_connection.cc:189-195 | an open connection that someone asks to close, in any thread, is closed and out of the table once all functors have run, whatever else happens |
| `TcpServers.ShutDownLasts` | muzi/net/tcp_connection.cc:210-217 | over every run after a shutdown request, a connected connection is disconnecting until it is closed |
| `TcpServers.AcceptedInBase` | muzi/net/tcp_server.cc:80-91 | a connection of the base loop is established and watched before NewConnection returns |
| `TcpServers.UpdatedAgrees` | muzi/net/poller/epoll_poller.cc:107-155 | a channel update in the server model is the poller's, legal in the same cases and with the same outcome |
| `TcpServers.CloseEventCloses` | muzi/net/channel.cc:56-70 | a close event that is not late finds its connection open; a late one closes it again |
| `TcpServers.ClosedOnceIffClean` | muzi/net/tcp_connection.cc:399-411 | in every run no connection is closed twice if and only if no close event comes after a close in the same round or after a close of a connection that wanted no events |
| `TcpServers.ClosedOnceIffRoundsClean` | muzi/net/event_loop.cc:103-115 | as long as connections want events, none is closed twice if and only if no round has a close event for a connection after closing it |
| `TcpServers.CleanRunsAreOrderly` | muzi/net/tcp_server.cc:103-120 | without late close events every connection closes at most once, every erase removes one entry, no channel is removed twice and every epoll_ctl call is legal |
| `TcpServers.OrderlyIffClean` | muzi/net/tcp_server.cc:103-120 | when all functors have run, every erase found its entry and no channel was removed twice if and only if no close event was late |
| `TcpServers.IllegalExactly` | muzi/net/poller/epoll_poller.cc:107-185 | in every run, a connection's channel gets an illegal epoll_ctl call if and only if, in an I/O loop, it was removed twice or more and the parity of its closes is that of a channel marked as added; in the base loop, it was closed three times, or twice if idle |
| `TcpServers.LegalIffSpared` | muzi/net/poller/epoll_poller.cc:107-185 | when all functors have run, every epoll_ctl call was legal if and only if the number of closes of every connection is one of those that spare it |
| `TcpServers.Settled` | muzi/net/tcp_server.cc:103-120 | with nothing pending, closed connections have left the table, their channel was removed as often as they were closed, and all erases but the first missed |
| `TcpServers.TwoPathsCloseTwice` | muzi/net/channel.cc:56-70 | two close paths of one dispatch close a connection twice |
| `TcpServers.OtherCallbackClosesTwice` | muzi/net/event_loop.cc:109-112 | a callback that closes another readable connection of the same round lets the end of file close that one again |
| `TcpServers.IdleClosesTwice` | muzi/net/poller/epoll_poller.cc:116-134 | a connection closed while it wanted no events is reported and closed again in a later round |
| `TcpServers.WatchedDoubleCloseIsFatal` | muzi/net/poller/epoll_poller.cc:158-185 | a connection of an I/O loop that wants events and is closed twice in one dispatch gets an illegal epoll_ctl call at its second removal |
| `TcpServers.ListeningReached` | muzi/net/tcp_server.cc:70-92 | from the start, two connections of an I/O loop come to want events, with nothing waiting |
| `TcpServers.IdleReached` | muzi/net/tcp_connection.cc:273-282 | from the start, an open connection comes to want no events |
| `EpollPollers.Channel.constructor` | muzi/net/channel.cc:7-17 | a new channel wants nothing and is unknown to the poller |
| `EpollPollers.EpollPoller.UpdateChannel` | muzi/net/poller/epoll_poller.cc:107-155 | the call made for status and mask; on a channel that may be used, the three records are in step again |
| `EpollPollers.EpollPoller.Change` | muzi/net/channel.cc:93-97 | the call chosen is legal, the new mask reaches the kernel or the channel leaves it, the records stay in step |
| `EpollPollers.EpollPoller.EnableReading` | muzi/net/channel.h:74 | the kernel watches the descriptor for incoming and urgent data as well |
| `EpollPollers.EpollPoller.DisableReading` | muzi/net/channel.h:77 | reading leaves the mask, and an added channel that wants nothing more leaves the kernel |
| `EpollPollers.EpollPoller.EnableWriting` | muzi/net/channel.h:80 | the kernel watches the descriptor for room to write as well |
| `EpollPollers.EpollPoller.DisableWriting` | muzi/net/channel.h:83 | writing leaves the mask, and an added channel that wants nothing more leaves the kernel |
| `EpollPollers.EpollPoller.DisableAll` | muzi/net/channel.h:86 | an added channel leaves the kernel; any other one enters it with an empty mask |
| `EpollPollers.EpollPoller.RemoveChannel` | muzi/net/poller/epoll_poller.cc:158-185 | the descriptor leaves the map and, by a legal call, the kernel |
| `EpollPollers.EpollPoller.Remove` | muzi/net/channel.cc:75-80 | afterwards neither record knows the descriptor, and the channel must not be used again |
| `EpollPollers.EpollPoller.UpdateAfterRemove` | muzi/net/poller/epoll_poller.cc:116-149 | an update after the removal is legal if and only if the status was deleted, and then the kernel watches a channel the map lacks |
| `EpollPollers.EpollPoller.FillActiveChannels` | muzi/net/poller/epoll_poller.cc:187-196 | every channel handed out is registered and added and has its received events; no other channel is touched |
| `EpollPollers.EpollPoller.Run` | muzi/net/poller/epoll_poller.cc:107-209 | over every run, operation by operation: the epoll_ctl call made, that it is legal, the new map and kernel set, and the records in step |
| `OldBuffers.PlusLinear` | muzi/net/old_buffer.h:141-157 | moving an iterator by n moves its position by n, for either sign, and lands inside a block |
| `OldBuffers.PlusAdds` | muzi/net/old_buffer.h:141-174 | moves add up, and a move back undoes a move |
| `OldBuffers.MinusExact` | muzi/net/old_buffer.h:96-100 | the difference is that of the positions if and only if the right operand points into a block; the left may be the end sentinel |
| `OldBuffers.PlusMinus` | muzi/net/old_buffer.h:96-100 | an iterator moved by n minus itself is n |
| `OldBuffers.LessIsPositionOrder` | muzi/net/old_buffer.h:183-186 | the comparison is that of positions |
| `OldBuffers.IncrementIsPlusOne` | muzi/net/old_buffer.h:103-111 | operator++ is a move by one, also across a block end |
| `OldBuffers.Buffer.constructor` | muzi/net/old_buffer.h:231-242 | the given number of blocks, nothing readable, 8 bytes in front |
| `OldBuffers.Buffer.ReadableBytes` | muzi/net/old_buffer.h:253-256 | the length of the content |
| `OldBuffers.Buffer.WritableBytes` | muzi/net/old_buffer.h:258-262 | what is left behind the write index, less one byte |
| `OldBuffers.Buffer.GetPrependableBytes` | muzi/net/old_buffer.h:264-267 | the room in front of the data |
| `OldBuffers.Buffer.Retrive` | muzi/net/old_buffer.h:296-307 | drops the first len bytes by moving the read index; dropping all of them resets both indices |
| `OldBuffers.Buffer.ResetIndex` | muzi/net/old_buffer.h:458-467 | nothing readable, 8 bytes in front |
| `OldBuffers.Buffer.ExtendSpace` | muzi/net/old_buffer.cc:111-156 | no readable byte changes and room grows: by swapping, with enough room, the data in the first block or in the second to leave 8 bytes in front, exactly when the list is more than twice what is used, else by doubling |
| `OldBuffers.Buffer.SwapBlocks` | muzi/net/old_buffer.cc:134-137 | the used blocks stand at the front in order and no block is lost |
| `OldBuffers.Buffer.SwapToFront` | muzi/net/old_buffer.cc:130-155 | the swapped ranges are disjoint and the content is the same at its new place |
| `OldBuffers.Buffer.Double` | muzi/net/old_buffer.cc:148-149 | twice the blocks, the old ones first, same content |
| `OldBuffers.Enough` | muzi/net/old_buffer.cc:121-132 | after the swap at least len bytes more are writable, and the ranges do not meet |
| `OldBuffers.Buffer.EnsureWritableBytes` | muzi/net/old_buffer.h:381-390 | terminates with at least len writable bytes, changes nothing if they were there, and never doubles the list once more than needed |
| `OldBuffers.Buffer.Append` | muzi/net/old_buffer.h:363-369 | adds the data at the back; the list changes only if room is short, and grows no more than needed |
| `OldBuffers.Buffer.CopyBehind` | muzi/net/old_buffer.h:367-368 | copying byte by byte through the iterator writes the data across block ends, and the index ends behind it |
| `OldBuffers.Buffer.Prepend` | muzi/net/old_buffer.h:427-433 | puts the data in front, byte by byte, and keeps the content |
| `LogStreams.ConvertInteger` | muzi/base/log_stream.h:142-159 | writes the canonical numeral, at most 20 characters, and touches nothing else |
| `LogStreams.PutDigits` | muzi/base/log_stream.h:148-152 | the loop writes the digits least significant first, for either sign |
| `LogStreams.LastDigit` | muzi/base/log_stream.cc:8-9 | the signed digit table gives the digit for a remainder of either sign |
| `LogStreams.Reverse` | muzi/base/log_stream.h:156 | reverses the stretch in place |
| `LogStreams.NumeralParses` | muzi/base/log_stream.h:142-159 | reading the numeral back gives the number, for every integer |
| `LogStreams.DigitsCanonical` | muzi/base/log_stream.h:148-152 | no leading zeros |
| `LogStreams.NumeralLength` | muzi/base/log_stream.h:135 | an integer of up to 64 bits, the most negative one included, takes at most 20 characters |
| `LogStreams.PutInteger` | muzi/base/log_stream.h:45-53 | the numeral is added whole, or nothing is added when fewer than 48 bytes are free |

## Left out

- ChainBuffers.ChainBuffer.AppendBuffer: asks for a different buffer. A buffer appended to itself doubles its content while it lies in one block; over more blocks the source's loop runs after the write cursor that it moves.
- ChainBuffers.ChainBuffer.UnWrite: what the undefined step before the first block does is not modelled, only when it happens.
- ChainBuffers.ChainBuffer.Perform: leaves out UnWrite and HasWrite, which are not queue operations.
- TimerQueues.TimerQueue.HandleRead: one clock stands for both the wall clock of timestamps and the monotonic clock of the kernel timer.
- TcpConnections.TcpConnection.EstablishConnection: the tie and the user's callback, which comes last and can be read as the next event.
- TcpConnections.TcpConnection.HandleClose: the user's callback and the server's, which come last; the server's is part of the server model.
- TcpConnections.TcpConnection.SendBufferInLoop: asks for a buffer other than the connection's own output buffer, as AppendBuffer does.
- TcpConnections.TcpConnection.Run: the write-complete and high-water callbacks do not send; a callback that does would interleave with the handler that calls it.
- EventLoops.LostWakeupExactly: a functor whose destructor queues another one after the calling flag is cleared is not modelled.
- AsyncOutputers.AsyncOutputer.Execute: rolling and flushing of the log file are not modelled; the file is the bytes appended to it.
- The server and the loops' interleavings are states as values, so updates in place are not captured there; the connection number is unbounded. Object lifetimes are not modelled: a connection whose last reference goes away in the middle of a round is still dispatched.
- ReadFd and WriteFd of the older buffer, which `buffer.h` no longer selects: unlike those of the live buffer they hold one byte back, have no limit on vectors, and never reset the indices after a write.
- The older buffer's integer forms, searches and operator--, which does not move inside a block.
- Waiting for an event loop to end, and stopping the thread pool.
- Destructors of servers, connections and clients, which depend on object lifetimes across threads.
- Acceptor, connector, client, thread pools, latches, sockets and addresses: system calls or small state machines that would only add easy members.
- The memory pool, file rolling, timestamps' formatting, stack traces, floating point and hexadecimal printing.
