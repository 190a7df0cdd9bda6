# Verified models of hiredis and libevent cores

The repository vendors two C libraries. This project models their hard, self-contained logic in Dafny and
proves what the code promises its callers; where the code does not keep a promise, it proves exactly when it does.

* **The asynchronous client** (`AsyncClient`, `Dispatch`, `PubSub`, `InFlight`, `Bookkeeping`, `Alignment`, `Protocol`,
  `Ledger`): two queues of reply callbacks, the subscription counters and the context flags as a state machine.
  `Dispatch` says on the reply itself which callback gets it. `PubSub` adds a pipe and a server that answers in order
  and sends pub/sub messages, in RESP2 or RESP3; `InFlight` plays what is on the wire
  against the client's bookkeeping; `Protocol` and `Ledger` hold the theorems. `AsyncContext` is the object whose
  methods update the fields in place, each proved to take the step of the machine.
* **The reply reader and the formatters** (`Num`, `Resp`, `Wires`, `Resumption`, `Reader`, `Counters`, `Format`,
  `Template`): the resumable task-stack parser against a recursive grammar, the grammar against a printer for every
  spelling of every reply, decimal conversion in 64-bit arithmetic, the printers with
  their predicted lengths, the template formatter, and the second parser `nextArgument`.
* **The evbuffer** (`Chains`, `Buffers`, `Reserve`, `Search`, `BufferRuns`): a linked list of partly filled chunks on the
  heap, with the pointer to the last chunk that holds data, against one byte sequence.
* **Rate limits and the bufferevent pair** (`TokenBuckets`, `RateLimit`, `GroupLimits`, `RateLimitGroups`, `Pairs`): the
  overflow-averse bucket arithmetic, suspend reasons and timers, group scheduling under failing try-locks, and the
  flow-controlled in-memory stream. State machines and the objects that refine them.
* **Smaller algorithms** (`Dicts`, `SdsQuote`, `Uniform`): the hash table of the subscriptions with its iterator,
  quoting and splitting of arguments, and unbiased range reduction.

Code that changes state in place is a class or works on an array; its methods are proved against specification
functions, and the theorems are about those functions. All theorems are for every input, every run or every
reachable state. Bytes are characters; allocation succeeds.

`dafny verify dfyconfig.toml` checks everything.

## Findings

Promises the code does not keep, with the input that shows it and the exact condition.

| where | what goes wrong | exact condition | example |
|---|---|---|---|
| deps/hiredis/async.c:503-537 | `pending_unsubs` runs ahead, and subscribed mode is never left | `Ledger.ModeEndsExactly`: in runs without it, no SUBSCRIBE is sent while the reply to a superfluous UNSUBSCRIBE of the same topic is outstanding | `Protocol.LeakHappens`: SUBSCRIBE, UNSUBSCRIBE twice, SUBSCRIBE of one channel |
| deps/hiredis/async.c:869-889 | a SUBSCRIBE of several channels carries a counter from one to the next | `Bookkeeping.MultiSubscribeExact`: right iff no channel is new after one whose counter was carried over | `Bookkeeping.MultiSubscribeLeaks` |
| deps/hiredis/async.c:621-627 | an error reply that finds `replies` empty closes the connection although a command waits in `sub.replies` | `Protocol.AnswerReachesOwner`: an answer misses its owner iff it is an error and `replies` is empty | `Protocol.ErrorMissesItsOwner`: SUBSCRIBE, its reply, then a command that is refused |
| deps/hiredis/async.c:480-484 | in RESP2 an array of three or more elements that answers a command waiting in `sub.replies` is taken for a pub/sub message: its callback is not called, and keeps waiting | `Dispatch.ReachesHeadExactly`: with `replies` empty, an answer that is no error reaches the head of `sub.replies` iff it is no such array or pushes have been seen | `Dispatch.LongAnswerIsLost`: SUBSCRIBE and UNSUBSCRIBE of one channel, LRANGE, SUBSCRIBE of another channel |
| deps/hiredis/async.c:804-812 | during a timeout callbacks get NULL replies while commands are still accepted, so that callbacks which re-issue their command keep the connection open for ever | `AsyncClient.TimeoutEndsExactly`: the number of callbacks still to return is bounded iff the context is disconnecting, freeing, or in subscribed mode without MONITOR being issued; `AsyncClient.CallbacksConserved`: while the context is open some callback has got NULL iff the timeout loop runs | `AsyncClient.TimeoutGoesOn` |
| deps/hiredis/read.c:254-262, 396-456, 468-491, 515-536 | signed counters overflow: the element index and the number of tasks (ints), the doubled count of a map and the length of a bulk string plus 2 (long longs) | `Counters.SafeOnShortStreams`: below 2 GiB nothing overflows but by a bulk header of LLONG_MAX or LLONG_MAX - 1 where an item begins, iff 0 < maxelements <= LLONG_MAX / 2 (the default); `Counters.LengthOverflowExactly`: such a header always does it, on streams of any length, whatever the limit; `Counters.SafeOnAllStreams`: the counts and indices of elements never do iff 0 < maxelements <= 2^30 | `Counters.LengthOverflows` (22 bytes), `Counters.DoublingOverflows`, `Counters.IndexOverflows`, `Counters.DepthOverflows`, `Counters.LineOverflows` |
| deps/hiredis/async.c:824 | `nextArgument` cuts the length of an argument to an int | `Format.ArgumentsOfEncode`: all arguments are returned iff each is shorter than 2^31 bytes | the same lemma |
| deps/libevent/buffer.c:2241-2247 | a reservation of no bytes in two or more vectors fails an assertion | `Reserve.ReserveSpace`: iff the chunk at the cursor is the last one and is full | `Reserve.FullChunkAborts` |
| deps/libevent/buffer.c:682-689, 752-770 | space reserved in one vector is refused by the commit | `Reserve.AppendInOne`: iff the reservation passes over the first chunk with space and the next chunk is not the last (`WillBeRefused`) | `Reserve.SingleVectorRefused` |
| deps/libevent/buffer.c:1170-1181, 1260-1347 | the number of bytes removed is cut to an int; removing 2^31 bytes looks like a failure | `BufferRuns.CountExact`: the number is right iff it is at most INT_MAX, and the bytes are gone in any case | `BufferRuns.RemovalLooksFailed` |
| deps/libevent/bufferevent_ratelim.c:74-111 | the bucket update is not min(maximum, limit + ticks * rate) | `TokenBuckets.RefillIsMin`: it is iff the limit is not above the maximum, or the wrapped difference is within what is given | `RateLimit.RefundGrows`: a refund of 200 into a bucket of 100 |
| deps/libevent/bufferevent_ratelim.c:529-557 | a group with an empty bucket runs | `GroupLimits.GuardExact`: iff a refill takes a suspended group with a minimal share of zero to exactly zero | `GroupLimits.EmptyMayRun` |
| deps/libevent/bufferevent_pair.c:195-202 | output is left to a willing reader although its writer is enabled: whether writing is suspended is asked only when it is enabled, and not by a transfer | `Pairs.HeldInRunsExactly`: over every run, iff at some step writing is enabled while it is suspended, with output waiting and a partner that reads (`EnablesSuspended`) | `Pairs.SuspendedWriterHolds` |

## Model

| member | source | states |
|---|---|---|
| Num.ParseLLCanonical | deps/hiredis/read.c:162-223 | exactly the canonical decimals of the signed 64-bit range are accepted, with their value |
| Num.String2LL | deps/hiredis/read.c:162-223 | the digit loop, in 64-bit arithmetic that never wraps, accepts and returns what `ParseLL` defines, and `ParseLLCanonical` says what that is |
| Num.LL2Str | deps/hiredis/sds.c:434-463 | writes the decimal numeral of every signed 64-bit value, the least included, and a NUL, in at most 21 bytes, and touches nothing behind it |
| Num.ParseOfDecimal | deps/hiredis/sds.c:434-463 | `string2ll` undoes `sdsll2str` on every signed 64-bit value |
| Num.CountDigits | deps/hiredis/hiredis.c:299-309 | the number of digits is the length of the numeral |
| Resp.FindCrlf | deps/hiredis/read.c:125-148 | the first CR LF pair, or that there is none |
| Resp.ReadHeadStable | deps/hiredis/read.c:268-570 | an item that could be read, or that was an error, reads the same however many bytes follow |
| Wires.ReadExactly | deps/hiredis/read.c:268-651 | from the bytes: a reply is read iff the stream begins with a well-formed spelling of it (status, error, integer, double, nil in its four spellings, bool, big number, bulk, verbatim string, array, map, set, push), and what follows is left over |
| Wires.StreamRead | deps/hiredis/read.c:736-787 | a stream of spelled replies is read as these replies, and then as what follows |
| Wires.StreamSpelled | deps/hiredis/read.c:736-787 | the replies of any stream are spelled out at its beginning; the error, if any, is that of what follows them |
| Wires.OtherBytes | deps/hiredis/read.c:576-625 | any byte that is not one of the thirteen type bytes is a protocol error |
| Wires.LineExact | deps/hiredis/read.c:268-394 | an item of one line is read iff the line suits its type; otherwise the error is that of the type |
| Wires.BulkExact | deps/hiredis/read.c:396-466 | for every length: refused, still waiting for bytes, a bad verbatim string, or read |
| Wires.AggRefused | deps/hiredis/read.c:494-570 | the lengths for which an aggregate is refused, and how |
| Resumption.DeliverUnwinds | deps/hiredis/read.c:240-266 | finishing a reply closes the aggregates it completes as the recursive grammar does, and stops where an element index no longer fits an int |
| Resumption.HeadStep | deps/hiredis/read.c:268-570 | reading one item leaves the replies still to come unchanged: a leaf is delivered, an aggregate header opens a frame |
| Reader.RedisReader.MoveToNextTask | deps/hiredis/read.c:240-266 | walking up the task array delivers the finished reply, or reports that the index of the next element overflows |
| Reader.RedisReader.Grow | deps/hiredis/read.c:468-491 | nine more tasks, as long as their number fits an int; the state of the parse is unchanged |
| Reader.RedisReader.ProcessItem | deps/hiredis/read.c:572-651 | an item consumes bytes and keeps the reader faithful to the grammar, or breaks the stream for good (each counter that overflows being one way), or needs more bytes |
| Reader.RedisReader.Feed | deps/hiredis/read.c:705-734 | appends to the stream unless it is broken |
| Reader.RedisReader.GetReply | deps/hiredis/read.c:736-787 | hands out the next reply of the stream; no reply means the stream so far holds no more, an error is the error of the whole stream; buffer compaction is invisible |
| Reader.Session | deps/hiredis/read.c:705-787 | for every stream, every way of cutting it into feeds and every pattern of requests for replies, the replies and the final error are those of the recursive grammar on the whole stream; the overflow of an element count or index, of the length of a line or a bulk string, and of the number of tasks are among the ends |
| Counters.SafeOnAllStreams | deps/hiredis/read.c:515-536 | no stream makes the count or the index of elements overflow iff 0 < maxelements <= 2^30 |
| Counters.SafeOnShortStreams | deps/hiredis/read.c:225-651 | on every stream of less than 2^31 bytes a counter, index, length or depth overflows exactly if a bulk header of LLONG_MAX or LLONG_MAX - 1 stands where an item begins; this holds iff 0 < maxelements <= LLONG_MAX / 2 |
| Counters.DoublingOverflows | deps/hiredis/read.c:536-536 | for every other limit, a short stream (a single map header) whose count overflows when doubled |
| Counters.IndexOverflows | deps/hiredis/read.c:254-262 | for every limit above 2^30, or none, a stream with an element whose index does not fit an int |
| Counters.LengthOverflowExactly | deps/hiredis/read.c:396-456 | on every stream, under every limit: the length of a bulk string overflows iff such a header stands where an item begins |
| Counters.LengthOverflows | deps/hiredis/read.c:418-432 | 22 bytes that do it under every limit |
| Counters.DepthOverflows | deps/hiredis/read.c:468-491 | a stream of nested arrays whose depth makes the number of tasks overflow, under every limit |
| Counters.LineOverflows | deps/hiredis/read.c:225-238 | every status line of INT_MAX - 1 bytes or more overflows the int that measures it |
| Format.FormatCommandArgv | deps/hiredis/hiredis.c:642-678 | the buffer has exactly the predicted size, and holds the command's wire form and a NUL |
| Format.FormatSdsCommandArgv | deps/hiredis/hiredis.c:586-631 | the same bytes, and the predicted length is theirs |
| Format.EncodeParses | deps/hiredis/hiredis.c:642-678 | what both formatters produce (their contracts say it is `Encode`) is read back as the array of exactly the arguments, whatever follows, iff the reader admits so many elements and each length plus 2 is a 64-bit value; otherwise the reader reports which of the two failed |
| Format.EncodeInjective | deps/hiredis/hiredis.c:642-678 | different argument lists have different wire forms, not even one a prefix of the other |
| Format.ArgumentsOfEncode | deps/hiredis/async.c:817-829 | iterating `nextArgument` over a formatted command returns exactly its arguments and stops, iff each is shorter than 2^31 bytes |
| Template.FormatCommand | deps/hiredis/hiredis.c:316-551 | for formats of literals, blanks, %s, %b and %%, the result is the wire form of the words of the format, in exactly the predicted size |
| Template.InterpolationNeverSplits | deps/hiredis/hiredis.c:335-400 | the number of arguments depends on the format alone: no interpolated byte splits one |
| AsyncClient.CallbacksConserved | deps/hiredis/async.c:269-305 | over every run without MONITOR, whatever the server sends, the accepted regular commands are, in order, those served, those in `replies` and those in `sub.replies`; the latter is empty outside subscribed mode; in an open context some callback has got NULL iff the timeout loop runs; a closed one has none waiting |
| AsyncClient.CallbacksConservedFromStart | deps/hiredis/async.c:106-159 | the same from a new context |
| AsyncClient.TeardownKeeps | deps/hiredis/async.c:362-409 | the release gives each waiting callback one NULL reply, in order, and runs exactly the subscription callbacks that have a function |
| AsyncClient.PubSubQueues | deps/hiredis/async.c:527-537 | leaving subscribed mode appends `sub.replies` to `replies` in order, and a pub/sub message moves no other callback |
| AsyncClient.ClassifyExact | deps/hiredis/async.c:846-951 | a command name without CR is recognised as a whole word in any case of the letters; a leading p makes it one for patterns; a SUBSCRIBE needs channels |
| AsyncClient.ClosesExactly | deps/hiredis/async.c:362-468 | for every event: the connection is closed by it iff it is an I/O error, an error reply that finds `replies` empty, a free outside a callback or the return of the callback it was called in, a disconnect with nothing waiting or the moment when nothing waits any more, or a timeout with no function left to call |
| AsyncClient.GracefulDisconnect | deps/hiredis/async.c:460-468 | after a disconnect every waiting callback gets the answer to its own command, and none NULL, and then the connection is closed |
| AsyncClient.DisconnectRefuses | deps/hiredis/async.c:834-852 | after a disconnect or a free no run accepts a command |
| AsyncClient.MonitorStays | deps/hiredis/async.c:634-656 | after MONITOR its callback gets every reply of any stream and goes on waiting |
| AsyncClient.TimeoutEndsExactly | deps/hiredis/async.c:804-812 | in every state of the timeout loop: the number of callbacks that can still return is bounded iff commands are refused (disconnecting or freeing), or the mode is subscribed and MONITOR is not issued |
| AsyncClient.TimeoutEnds | deps/hiredis/async.c:804-812 | in those cases at most one callback returns for each that was waiting, and one more |
| AsyncClient.TimeoutGoesOn | deps/hiredis/async.c:776-813 | one command and a timeout lead, after any number of returns, to a connection that is open and accepts commands |
| Dispatch.LongArray | deps/hiredis/async.c:470-544 | every array of three or more elements, before any push was seen: which subscriber is called, how SUBSCRIBE counts down, what UNSUBSCRIBE drops or counts and when it ends the mode, that the callbacks in `sub.replies` get nothing, and when an assertion fails |
| Dispatch.OtherReply | deps/hiredis/async.c:538-544 | any other answer goes to the head of `sub.replies` |
| Dispatch.RepliesFirst | deps/hiredis/async.c:596-632 | while a callback waits in `replies`, the head of it gets the reply |
| Dispatch.ReachesHeadExactly | deps/hiredis/async.c:480-484 | an answer in subscribed mode reaches the head of `sub.replies` iff it is not an array of three or more elements, or pushes have been seen |
| Dispatch.LongAnswerIsLost | deps/hiredis/async.c:480-544 | a run, with replies in order, in which such an answer reaches nobody |
| Bookkeeping.CoreSubscribe | deps/hiredis/async.c:865-889 | sending SUBSCRIBE keeps counters and replies in flight in step, and the surplus of `pending_unsubs` grows by the ignored replies in flight for the topic |
| Bookkeeping.CoreUnsubscribe | deps/hiredis/async.c:901-921 | sending UNSUBSCRIBE keeps them in step, without surplus |
| Bookkeeping.CoreUnsubscribeAll | deps/hiredis/async.c:922-941 | the same for UNSUBSCRIBE without channels |
| Bookkeeping.MultiSubscribeExact | deps/hiredis/async.c:869-889 | the counters of a SUBSCRIBE of several channels are those of one SUBSCRIBE each iff no channel is new after one whose counter was carried over |
| Bookkeeping.MultiSubscribeLeaks | deps/hiredis/async.c:869-889 | subscribing to a second channel along with one that waits for a reply gives the second a counter of 2 |
| InFlight.PlayServed | deps/hiredis/async.c:470-544 | what the server puts on the wire for a request plays, in the client's bookkeeping, as what was expected of it |
| Protocol.MoveKeeps | deps/hiredis/async.c:570-662 | in RESP2 and RESP3, every step of client, pipe and server keeps the invariant that aligns queues and counters with what is in flight, also while a timeout runs, and changes the surplus only by the cost of a SUBSCRIBE |
| Protocol.NeverCrashes | deps/hiredis/async.c:470-544 | in every reachable state no assertion of the client fails and no element out of range is read |
| Protocol.AnswerReachesOwner | deps/hiredis/async.c:570-662 | every answer reaches the callback of its own command, except that an error which finds `replies` empty closes the connection |
| Protocol.ErrorMissesItsOwner | deps/hiredis/async.c:621-627 | that exception is reached, for every channel and error text: the waiting callback gets NULL and the connection is closed |
| Protocol.MessageReachesSubscriber | deps/hiredis/async.c:483-502 | every published message, as an array or a push, finds the callback of its topic |
| Protocol.ModeIsSafe | deps/hiredis/async.c:527-537 | subscribed mode is off only when no pub/sub reply is in flight, the server holds no topic and no callback waits in `sub.replies` |
| Protocol.ModeIsLeftExactly | deps/hiredis/async.c:509-536 | an UNSUBSCRIBE reply ends the mode iff nothing of pub/sub is in flight, no topic is left and `pending_unsubs` has no surplus |
| Protocol.LeakIsExact | deps/hiredis/async.c:865-938 | over every run the surplus is what SUBSCRIBE commands took over |
| Protocol.LeakHappens | deps/hiredis/async.c:865-938 | the surplus is reached with four commands on one channel |
| Ledger.MoveTells | deps/hiredis/async.c:509-514 | the client can count, from what it sends and reads, the replies to superfluous UNSUBSCRIBEs outstanding for each topic |
| Ledger.ModeEndsExactly | deps/hiredis/async.c:509-536 | from the start: the mode ends iff nothing of pub/sub is in flight, no topic is left, and the client's own count of replies taken over by SUBSCRIBE is zero |
| AsyncContext.RedisAsyncContext.Command | deps/hiredis/async.c:834-968 | takes the machine's step for a command, and is accepted when the machine accepts it |
| AsyncContext.RedisAsyncContext.ProcessReply | deps/hiredis/async.c:570-662 | one reply: takes the machine's step, or fails the assertion where the machine does |
| AsyncContext.RedisAsyncContext.GetSubscribeCallback | deps/hiredis/async.c:470-544 | the same for a pub/sub message |
| AsyncContext.RedisAsyncContext.UnsubscribeFromAll | deps/hiredis/async.c:922-941 | iterating over a dictionary marks all of its topics; one reply to be ignored is counted iff all were marked before |
| AsyncContext.RedisAsyncContext.FinishCallback | deps/hiredis/async.c:634-656 | the step after a callback has returned |
| AsyncContext.RedisAsyncContext.Release | deps/hiredis/async.c:362-409 | drains both queues with NULL replies, then runs the subscription callbacks with one |
| AsyncContext.RedisAsyncContext.TimeOut | deps/hiredis/async.c:804-812 | the timeout loop up to the next callback, or the close |
| Chains.Capacity | deps/libevent/buffer.c:157-193 | a new chunk has room for what was asked, and not much more than twice that |
| Buffers.EvBuffer.Add | deps/libevent/buffer.c:1730-1824 | appends, or fails when frozen or too long; list, cursor, last chunk and length stay right (`Valid`) |
| Buffers.EvBuffer.Prepend | deps/libevent/buffer.c:1827-1910 | puts bytes in front |
| Buffers.EvBuffer.Drain | deps/libevent/buffer.c:1101-1166 | drops bytes from the front, all of them when asked for more |
| Buffers.EvBuffer.CopyOut | deps/libevent/buffer.c:1184-1254 | returns the first bytes and changes nothing |
| Buffers.EvBuffer.Remove | deps/libevent/buffer.c:1170-1181 | returns the first bytes and drops them |
| Buffers.EvBuffer.AddBuffer | deps/libevent/buffer.c:966-1009 | all bytes of another buffer move behind those of this one; a buffer added to itself is left alone |
| Buffers.EvBuffer.PrependBuffer | deps/libevent/buffer.c:1055-1098 | all bytes of another buffer move in front of those of this one |
| Buffers.EvBuffer.RemoveBuffer | deps/libevent/buffer.c:1260-1347 | the first bytes move, in order, to the end of another buffer, whole chunks by relinking and the rest by copying |
| Buffers.EvBuffer.Pullup | deps/libevent/buffer.c:1350-1461 | the byte sequence is unchanged and its first `size` bytes lie in the first chunk; null iff there are not as many |
| BufferRuns.Session | deps/libevent/buffer.c:966-1461 | every run of these operations on two buffers returns what the plain byte sequences return |
| BufferRuns.CountExact | deps/libevent/buffer.c:1170-1181 | bytes removed are gone in any case, and their number is returned iff it is at most INT_MAX, for both ways of removing |
| BufferRuns.RemovalLooksFailed | deps/libevent/buffer.c:1170-1181 | 2^31 bytes are removed with a negative result |
| Reserve.ExpandFast | deps/libevent/buffer.c:2051-2158 | content unchanged, and so many writable bytes within so many chunks |
| Reserve.ReserveSpace | deps/libevent/buffer.c:671-701 | content unchanged; the vectors are free space of the chunks from the cursor on and hold the size asked for; refused iff frozen or without vectors; the assertion fails iff two or more vectors are asked for no bytes and the last chunk is full |
| Reserve.CommitSpace | deps/libevent/buffer.c:724-791 | accepted iff the vectors start at the free space of the successive chunks, or a single one at that of the last chunk; then exactly their bytes are appended |
| Reserve.AppendReserved | deps/libevent/buffer.c:671-791 | reserving in two or more vectors, filling and committing appends the bytes, except where the assertion fails |
| Reserve.AppendInOne | deps/libevent/buffer.c:671-791 | with one vector the commit is accepted iff the reservation does not pass over a chunk with space that two more chunks follow |
| Reserve.SingleVectorRefused | deps/libevent/buffer.c:671-791 | a buffer, built by public calls, on which it is refused |
| Reserve.FullChunkAborts | deps/libevent/buffer.c:2225-2260 | a buffer on which a reservation of no bytes fails the assertion |
| Search.PtrSet | deps/libevent/buffer.c:2623-2672 | the position asked for, at a byte of a chunk or at the end; nothing iff it lies behind the end or overflows |
| Search.PtrSubtract | deps/libevent/buffer.c:2603-2620 | the position that many bytes before, if there is one |
| Search.CopyOutFrom | deps/libevent/buffer.c:1190-1254 | the bytes from a position on, over any chunk boundaries, as many as were asked for or are left; nothing is changed |
| Search.PtrEquals | deps/libevent/buffer.c:2679-2712 | equality of the bytes at a position with a string, across chunk boundaries |
| Search.SearchRange | deps/libevent/buffer.c:2721-2782 | the first occurrence at or after the start that ends by the end, across any chunk boundaries, or that there is none |
| Search.SearchEol | deps/libevent/buffer.c:1597-1684 | for each style the first end of line and its length, or that there is none |
| Search.EolIsUnique | deps/libevent/buffer.c:1597-1684 | these conditions determine the end of line |
| Search.Readln | deps/libevent/buffer.c:1687-1723 | the content is split into line, terminator and rest; nothing iff there is no end of line |
| TokenBuckets.RefillIsMin | deps/libevent/bufferevent_ratelim.c:74-111 | one side of the update is min(maximum, limit + ticks * rate) iff the limit is not above the maximum or the wrapped difference is within what is given |
| TokenBuckets.UpdateIsMin | deps/libevent/bufferevent_ratelim.c:74-111 | a bucket within its limits is refilled so on both sides |
| TokenBuckets.UpdatesCompose | deps/libevent/bufferevent_ratelim.c:74-111 | two updates that span no more than INT_MAX ticks together are one |
| TokenBuckets.TokenBucket.Update | deps/libevent/bufferevent_ratelim.c:74-111 | the object's fields become those of the update, and it reports whether time had passed |
| RateLimit.EveryRun | deps/libevent/bufferevent_ratelim.c:394-439 | over every run the refill timer is pending iff a direction is suspended for bandwidth, an empty bucket is suspended, a direction runs only if enabled and not suspended, and, from the first event that touches it on, iff so |
| RateLimit.EveryRunFromFresh | deps/libevent/bufferevent.c:309-386 | from a new bufferevent: reading runs iff enabled and not suspended; writing, which is enabled without being told to run, does so iff some event has touched it |
| RateLimit.RefundGrows | deps/libevent/bufferevent_ratelim.c:74-111 | a bucket lifted above its maximum by a refund grows with the refill instead of being cut to its maximum |
| RateLimit.MaxExact | deps/libevent/bufferevent_ratelim.c:198-258 | what may be used is exactly what does not take the bucket below zero; using all of it empties the bucket and suspends the direction |
| RateLimit.LimitBegins | deps/libevent/bufferevent_ratelim.c:50-71 | a new limit lets the bytes of one tick pass at once; a changed one takes away what exceeds its maximum and gives nothing; the direction is suspended iff its bucket is empty |
| RateLimit.SpendExact | deps/libevent/bufferevent_ratelim.c:270-343 | using bytes suspends the direction iff its bucket is empty then; the user's taking or giving does so when that changes; the other direction is not touched |
| RateLimit.AskExact | deps/libevent/bufferevent_ratelim.c:114-124 | asking refills the bucket by the rate of the ticks since, up to the maximum |
| RateLimit.RateIsKept | deps/libevent/bufferevent_ratelim.c:198-258 | over any stretch of time no more bytes pass than the bucket held and was given |
| RateLimit.IdleResumes | deps/libevent/bufferevent_ratelim.c:394-439 | left alone, a bufferevent is released after as many refills as the deeper deficit |
| RateLimit.LimitedBufferevent.SetLimit | deps/libevent/bufferevent_ratelim.c:560-635 | the object takes the machine's step when its limit is set, changed or removed |
| RateLimit.LimitedBufferevent.RefillCallback | deps/libevent/bufferevent_ratelim.c:394-439 | the same for the refill timer |
| GroupLimits.NoLostWakeup | deps/libevent/bufferevent_ratelim.c:350-371 | over every run, whatever locks fail: a member suspended for the group belongs to a suspended group or one with releases outstanding, never both |
| GroupLimits.EveryRunFromNew | deps/libevent/bufferevent_ratelim.c:638-669 | the same from the creation of the group, with every empty bucket suspended unless the minimal share is set to zero |
| GroupLimits.GroupBegins | deps/libevent/bufferevent_ratelim.c:638-700 | a group begins with the bytes of one tick; a new configuration takes away what exceeds its maximum and gives nothing |
| GroupLimits.ShareExact | deps/libevent/bufferevent_ratelim.c:226-253 | the share: zero in a suspended group; else the minimal share, or the largest number of which the bucket holds as much for each member |
| GroupLimits.RoundKeepsLimit | deps/libevent/bufferevent_ratelim.c:226-305 | in a round in which every member in turn uses at most what it is told, no more is used than the bucket held, or than a minimal share each |
| GroupLimits.StartSharesKeepLimit | deps/libevent/bufferevent_ratelim.c:226-253 | the same if all are told at the start |
| GroupLimits.RefillExact | deps/libevent/bufferevent_ratelim.c:529-557 | a refill gives the rate of the ticks that have passed, up to the maximum |
| GroupLimits.GroupLedger | deps/libevent/bufferevent_ratelim.c:295-305 | over every run the bucket holds no more than it held, less what was taken, plus the rate of the ticks |
| GroupLimits.SuspendedExactly | deps/libevent/bufferevent_ratelim.c:295-305 | for every event, whether the group is suspended after it |
| GroupLimits.IdleGroupReleased | deps/libevent/bufferevent_ratelim.c:529-557 | an idle suspended group is released within as many refills as make up its deficit |
| GroupLimits.IdleMembersFreed | deps/libevent/bufferevent_ratelim.c:529-557 | after those refills, one that finds all locks free leaves no member suspended for the group and no release outstanding |
| GroupLimits.GuardExact | deps/libevent/bufferevent_ratelim.c:529-557 | for every event and direction: a group stops guarding its empty bucket iff a refill takes a suspended group with minimal share zero to exactly zero |
| GroupLimits.EmptyIsSuspended | deps/libevent/bufferevent_ratelim.c:703-721 | as long as no minimal share of zero is set, an empty group is suspended |
| GroupLimits.EmptyMayRun | deps/libevent/bufferevent_ratelim.c:529-557 | with a minimal share of zero one runs |
| RateLimitGroups.RateLimitGroup.SuspendAll | deps/libevent/bufferevent_ratelim.c:350-371 | the walk over the members suspends exactly those whose lock is free |
| RateLimitGroups.RateLimitGroup.UnsuspendAll | deps/libevent/bufferevent_ratelim.c:488-504 | from any starting member, all whose lock is free are released; the rest stay marked as outstanding |
| Pairs.EveryRun | deps/libevent/bufferevent_pair.c:153-250 | over every run of writes, reads, enabling, watermarks, flushes and suspensions: written == read ++ input ++ output, both ways; the watermark suspends reading iff it is reached; nothing is left to a willing reader by a writer that is not suspended |
| Pairs.WillingMeansDelivered | deps/libevent/bufferevent_pair.c:195-250 | from the start: if writer and reader are enabled and not suspended, everything written was read or is in the reader's input |
| Pairs.HeldExactly | deps/libevent/bufferevent_pair.c:195-250 | from any two ends with nothing left over, an operation leaves output to a willing reader and an enabled writer iff it enables writing that is suspended while the partner reads and output waits |
| Pairs.HeldInRunsExactly | deps/libevent/bufferevent_pair.c:195-250 | over every run: nothing is ever so left iff no step is of that kind |
| Pairs.SuspendedWriterHolds | deps/libevent/bufferevent_pair.c:195-202 | from a new pair, a run to a willing reader, an enabled but suspended writer and undelivered output |
| Pairs.NeverPushedPast | deps/libevent/bufferevent_pair.c:153-192 | no operation but a flush pushes an input past a non-zero high watermark |
| Pairs.FlushStopsAtWatermark | deps/libevent/bufferevent_pair.c:305-337 | a flush fills an input below its watermark no further than that |
| Pairs.FlushExact | deps/libevent/bufferevent_pair.c:305-337 | for each direction: a flush moves all output, or as much as brings an input that is below its watermark up to it, in order, whatever is enabled or suspended; nothing in a direction not asked for |
| Pairs.NothingArrives | deps/libevent/bufferevent_pair.c:195-250 | while reading is disabled or suspended at one end, or writing is disabled at the other, nothing arrives over any run without a flush |
| Pairs.BarWorks | deps/libevent/bufferevent.c:573-587 | the same, from the operation that disables or suspends to the one that lifts it |
| Pairs.ReadGets | deps/libevent/bufferevent.c:470-473 | a read gets as many bytes as asked for, from the front, or all there are |
| Pairs.TransferExact | deps/libevent/bufferevent_pair.c:153-192 | exactly how many bytes a transfer moves, and that it suspends the reader iff the watermark is reached |
| Pairs.PairEnd.TransferOut | deps/libevent/bufferevent_pair.c:153-192 | the two objects take that step |
| Dicts.MaskIsRemainder | deps/hiredis/dict.c:92-138 | masking with size - 1 is the remainder by the size |
| Dicts.Dict.Expand | deps/hiredis/dict.c:92-138 | every entry is relinked into the new table, a power of two long; the map and the count are unchanged; refused iff the size is below the count |
| Dicts.Dict.Add | deps/hiredis/dict.c:141-163 | adds iff the key is new, growing the table when it is full |
| Dicts.Dict.Replace | deps/hiredis/dict.c:169-191 | sets the value of a key, new or not |
| Dicts.Dict.Delete | deps/hiredis/dict.c:194-222 | removes the key and unlinks exactly its entry |
| Dicts.Dict.Find | deps/hiredis/dict.c:255-268 | the entry of a key, with the map's value; null iff the key is not in the map |
| Dicts.DictIterator.Next | deps/hiredis/dict.c:277-295 | an entry not returned before; null iff none is left |
| Dicts.DictIterator.DeletionIsSafe | deps/hiredis/dict.c:277-295 | deleting the entry just returned leaves the iterator valid, with the same entries to come |
| Dicts.VisitAll | deps/hiredis/dict.c:270-295 | iterating while deleting any of the returned entries visits every entry exactly once |
| SdsQuote.CatRepr | deps/hiredis/sds.c:875-898 | appends the quoted form of a byte string |
| SdsQuote.SplitArgs | deps/hiredis/sds.c:943-1059 | the arguments of a line as `Split` defines them, and `SplitExact` says what these are |
| SdsQuote.SplitUndoesQuoting | deps/hiredis/sds.c:943-1059 | splitting a line returns exactly what was written into it: bare, in double quotes with every spelling of a byte (raw, backslash, hex digits of either case), in single quotes, or bare up to a quote, with any blanks that end them between; an argument whose quote is not closed, or is closed before a non-blank, makes the whole line refused |
| SdsQuote.SplitExact | deps/hiredis/sds.c:943-1059 | every line is written in one of these ways; so the arguments are those of its words, and the line is refused iff it ends in such a flaw |
| SdsQuote.JoinedRoundTrip | deps/hiredis/sds.c:875-1059 | any list of byte strings survives being quoted by `sdscatrepr`, joined with spaces and split |
| SdsQuote.ReprInjective | deps/hiredis/sds.c:875-898 | the quoted form determines the byte string, also at the front of a longer line |
| Uniform.ThresholdExact | deps/libevent/arc4random.c:520-530 | the 32-bit computation of the threshold gives 2^32 modulo the bound, for every bound of at least 2 |
| Uniform.Arc4RandomUniform | deps/libevent/arc4random.c:513-545 | the remainder of the first word that is not below 2^32 modulo the bound; 0 for bounds below 2 |
| Uniform.EqualShares | deps/libevent/arc4random.c:513-545 | every result has the same number of accepted words |
| Uniform.MoreThanHalf | deps/libevent/arc4random.c:533-538 | more than half of all words are accepted |

## Left out

Stated weaker than the source's full behaviour:

- Protocol.NeverCrashes: MONITOR is not issued, a SUBSCRIBE of several channels only where its counters come out right (`MultiSubscribeExact`); the server never answers SUBSCRIBE or UNSUBSCRIBE with an error reply, and in RESP2 answers no command that waits in `sub.replies` with an array of three or more elements (`Dispatch.LongAnswerIsLost`).
- AsyncClient.CallbacksConserved: MONITOR is not issued, because it puts its callback back into the queue after every reply (`MonitorStays`).
- AsyncContext.RedisAsyncContext.Release: the order in which the dictionaries are visited is left open, and the disconnect callback and the event library's clean-up are not modelled.
- AsyncContext.RedisAsyncContext.Command: works on maps of topics, not on the hash table of `Dicts`; the state machine merges `sub.channels` and `sub.patterns` into one map of topics, the object keeps both.
- Reader.Session: after a counter overflow the code's behaviour is undefined, and the model stops there with `CountOverflow`, `LineOverflow`, `LengthOverflow` or `DepthOverflow`; the sum of a position and a length does not wrap, as no buffer is larger than memory; `strtod` is a parameter; reply objects are built per task and not linked into a partial tree; shrinking of the buffer in `redisReaderFeed` is not modelled.
- Format.ArgumentsOfEncode: covers formatted commands only; a command without a CR behind the length fails an assertion in `nextArgument`, and the blanks and signs that `strtol` also accepts do not occur in one.
- Template.FormatCommand: the printf conversions other than %s, %b and %% are delegated to the C library and not modelled; the whole command fits an int, as its length does.
- Buffers.EvBuffer.RemoveBuffer: the two lengths together do not exceed the largest length, as no memory holds more.
- Buffers.EvBuffer.CopyOut: from the beginning only; `Search.CopyOutFrom` is the same function called with a position.
- Reserve.ReserveSpace: for a size that is not negative.
- RateLimit.EveryRun: without refunds that lift a bucket above its maximum; the conversion of times to ticks is a parameter; a limit with no configuration and no limit at all are one case.
- GroupLimits.NoLostWakeup: the group's timer fires as an event; changes of the tick length are not modelled.
- Pairs.EveryRun: the evbuffers are byte sequences; timeouts, deferred user callbacks and an unlinked partner are not modelled.
- Dicts.Dict.Add: fewer than 2^30 entries, since the code keeps bucket positions in ints; freed entries are forgotten, not poisoned; `dictRelease` is not modelled.
- SdsQuote.SplitArgs: in the C locale.
- Uniform.Arc4RandomUniform: the random words are given as a finite list, and there is no result when none is accepted.

Not modelled at all:

- Failing allocations, in every module: several paths leave partial updates behind.
- REDIS_NO_AUTO_FREE, connecting, command timeouts other than their effect on waiting callbacks, and the event library's read and write scheduling.
- Pinned, immutable, multicast, reference and file chunks of an evbuffer, its callbacks and its locks.
- Sockets, DNS, TLS, Windows I/O, epoll tables, code generators.
- `sdsrange`, `sdscatfmt`, `sdscatvprintf`, and the text of error messages: easy members or printf.
- The stream cipher and the seeding behind `arc4random`.
