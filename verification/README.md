# tiny_proxy in Dafny

tiny_proxy is a multi-threaded HTTP/1.x proxy in C. This project models its five cores and proves what
each is for. Check it with `dafny verify dfyconfig.toml`.

**Thread pool and blocking queue.** `TaskQueue.dfy` and `BQueue.dfy` are the two linked lists, as
classes over a heap in which a new node's `next` pointer is arbitrary. `PoolProtocol.dfy` and
`BQueueProtocol.dfy` are the locks, condition variables and shutdown flags around them, as transition
systems in which waiting, waking, spurious wakeups and signals are steps of their own. The periodic
signal of `threadpool_adjust` is a step that a run may take or not, so it is not needed for the
absence of lost wakeups. `Consumption.dfy` says what one passage of a consumer through its critical section
comes to; the lists do it at once, the threads step by step. `Sums.dfy` counts threads.

**Request lines.** `RequestGrammar.dfy` is a grammar for request lines, and the scanner's state
machine with what it has remembered; `RequestParser.dfy` is `parse_requestline` itself, with its
cursors and buffers, proved against that machine. RFC 7230 (sections 3.1.1 and 5.3) and the code differ,
and the model follows the code: `schema://host` alone is rejected, and the first character of a target
is not checked.

**Streams.** `Rio.dfy` is the buffered reader and the writer of `csapp.c` over a kernel that answers
from a script, with portions of any size, interruptions and errors; the meaning is a plain stream, and
for writing the series of portions passed to `rio_writen`, of which exactly what each call gets rid of
arrives. `Numerals.dfy` is `sio_ltoa` and `getchunksize`. `Chunked.dfy`, `Headers.dfy` and `Exchange.dfy`
build on them: `forward_chunked` on any stream, the header blocks of requests and replies, and a whole
GET or POST; `Messages.dfy` states what they send in terms of the texts of lines, words and numbers. Where the C code runs into undefined behaviour, such as copying a value beyond its field,
the model stops with an outcome that says so and promises nothing more; when that happens is proved
exactly for every request line, for blocks of complete header lines, for well-formed chunked bodies, and
for chunked bodies at the end of the stream.

Some results about these are negative, each with its exact condition and an input. `forward_chunked` does
not forward the size lines of chunks with data; behind a body that breaks off it reads a size from what is
left in its buffer again and again, and, unless that is the text of a last chunk, loops for ever or overflows
the sum of sizes. Header names are compared by case, so a body announced as `Content-Length` is refused. Without a `Host` line the
empty line that ends the headers is overwritten and the host is written twice. Of a counted body that
comes short the rest is sent from uninitialised memory. Long values overrun the fields they are noted in.

**Hash map.** `HashMap.dfy` is the segmented map with its chains on the heap, used by one thread;
`HashMapSteps.dfy` is the two-phase put, putIfAbsent and get of many threads. Its negative result is that two
inserters of one key can both succeed; the exact condition under which they cannot is proved.

**Connections.** `StartUp.dfy` is the hand-off of the indices at the start, with the negative results that
a worker can read its index from a variable whose lifetime has ended, and that the assertion on `epoll_list`
can fail for an early connection. `Tunnel.dfy` is `connect_handler`, event
by event up to the batch in which a peer has closed, with the negative result that a tunnel loses bytes when
a peer's descriptor has no room. `Doit.dfy` joins the
parser, the exchange and the tunnel to `doit` and says what it does to descriptors; `Connections.dfy` is who
owns which descriptor over all runs of main and the workers, with descriptor numbers that the kernel uses
again. `Division.dfy` is shared arithmetic.

What comes from outside is a parameter: the results of `read`, `write` and `epoll_wait`, whether a host
is reached, and what uninitialised local buffers hold. Characters stand for bytes.

## Model

| member | source | states |
|---|---|---|
| `TaskQueue.Pool.Add` | tools/threadpool.c:145-167 | adding appends one task to the list, whatever the new task's uninitialised next pointer holds |
| `TaskQueue.Pool.Take` | tools/threadpool.c:117-135 | the worker's critical section takes the oldest task and keeps the rest; it waits exactly on an empty list before shutdown, takes nothing after shutdown, and the branch of line 130 is unreachable |
| `PoolProtocol.RunInv` | tools/threadpool.c:85-184 | the invariant of the lock, the flag, the tickets and the wakeups holds in every state of every run of any number of workers and producers |
| `PoolProtocol.NoLostWakeup` | tools/threadpool.c:113-184 | before shutdown, while a worker sleeps, no more tasks are queued than workers are heading for the lock, plus at most the one whose producer holds the lock and is about to signal |
| `PoolProtocol.NoStuckTask` | tools/threadpool.c:113-167 | with the lock free, tasks queued and a worker asleep, another worker takes the oldest task by its own next four steps, so no task is stuck as the comment at line 171 fears |
| `PoolProtocol.ConservationAndOrder` | tools/threadpool.c:128-166 | tasks added in lock order are the tasks taken followed by the tasks queued |
| `PoolProtocol.HistoriesGrow` | tools/threadpool.c:85-167 | what has been added or taken stays so, and after the flag is set nothing more is taken |
| `PoolProtocol.TicketKeepsWorker` | tools/threadpool.c:128-140 | the position a worker has taken is never held by another worker |
| `PoolProtocol.TicketNeverReturns` | tools/threadpool.c:128-140 | a task that has been run is never run again |
| `PoolProtocol.NoSleepAfterShutdown` | tools/threadpool.c:92-95 | once the flag is set no worker falls asleep, and one is asleep only until the broadcast |
| `PoolProtocol.SectionIsTake` | tools/threadpool.c:117-135 | in every run, whatever other threads do meanwhile, the steps of a worker from getting the lock to giving it back are one passage of Pool.Take on the queue and the flag as it found them: the same outcome and the same queue left |
| `PoolProtocol.AdjusterSection` | tools/threadpool.c:173-184 | each time the adjuster has the lock it signals if and only if tasks are queued |
| `PoolProtocol.ShutdownProgress` | tools/threadpool.c:85-184 | after the flag is set every step but a new call of threadpool_add lowers a measure over program points |
| `PoolProtocol.ShutdownNeverStuck` | tools/threadpool.c:85-184 | after the flag is set some thread can move until threadpool_destroy has returned |
| `PoolProtocol.ShutdownReachesEveryWorker` | tools/threadpool.c:92-125 | after the flag is set a run has a bounded number of steps left, can only end with threadpool_destroy returned, and then every worker has exited |
| `BQueue.Queue.IsEmpty` | tools/bqueue.c:94-96 | the test on size agrees with the test on tail |
| `BQueue.Queue.Enqueue` | tools/bqueue.c:139-149 | appends the entry |
| `BQueue.Queue.Dequeue` | tools/bqueue.c:151-162 | null exactly on the empty queue, otherwise the oldest entry, detached, and the rest stays in order |
| `BQueue.BlockingQueue.Insert` | tools/bqueue.c:84-92 | appends the value |
| `BQueue.BlockingQueue.Remove` | tools/bqueue.c:119-137 | waits exactly on an empty queue before shutdown, answers -1 after shutdown, and otherwise removes the oldest value; the branch of line 133 is unreachable |
| `BQueue.BlockingQueue.RemoveNonblocking` | tools/bqueue.c:98-117 | -1 after shutdown, -2 on an empty queue, otherwise the oldest value |
| `BQueueProtocol.RunInv` | tools/bqueue.c:70-137 | the invariant holds in every state of every run of any number of inserters and of blocking and non-blocking removers |
| `BQueueProtocol.NoLostWakeup` | tools/bqueue.c:84-137 | before shutdown, while a remover sleeps, no more values are queued than removers are heading for the lock and inserters still owe the signal they send after unlocking |
| `BQueueProtocol.NoStuckValue` | tools/bqueue.c:84-137 | when every signal has been sent and the lock is free, an awake remover takes the oldest value by its own next four steps |
| `BQueueProtocol.ConservationAndOrder` | tools/bqueue.c:84-137 | values inserted in lock order are the values removed followed by the values queued |
| `BQueueProtocol.ShutdownStopsRemovals` | tools/bqueue.c:70-75 | after the flag is set nothing is removed, nobody falls asleep, and nobody sleeps once the lock is free |
| `BQueueProtocol.ShutdownProgress` | tools/bqueue.c:70-137 | after the flag is set every step but a new call lowers a measure over program points |
| `BQueueProtocol.ShutdownNeverStuck` | tools/bqueue.c:70-137 | after the flag is set some thread can move without a new call until every call has returned |
| `BQueueProtocol.ShutdownEndsEveryCall` | tools/bqueue.c:70-137 | after the flag is set a run without new calls has a bounded number of steps left, removes nothing, and cannot go on if and only if every remover, every inserter and bqueue_destroy have returned |
| `BQueueProtocol.RemoverSection` | tools/bqueue.c:119-137 | the steps of a remover from getting the lock to giving it back are one passage of BlockingQueue.Remove on the queue and the flag as it found them |
| `BQueueProtocol.PollerSection` | tools/bqueue.c:98-117 | and those of a non-blocking remover one passage of RemoveNonblocking |
| `RequestGrammar.AcceptsExactlyTheGrammar` | tools/parse_requestline.c:59-318 | the scanner accepts a line if and only if it is a line of the explicit grammar whose components fit their buffers |
| `RequestGrammar.DecompositionUnique` | tools/parse_requestline.c:59-318 | a line can be taken apart by the grammar in one way only |
| `RequestGrammar.AcceptedIsLine` | tools/parse_requestline.c:59-318 | soundness: printing the components an accepting scanner has remembered gives the line back |
| `RequestGrammar.RunComplete` | tools/parse_requestline.c:59-318 | completeness: every line of the grammar whose components fit is accepted with exactly its components |
| `RequestGrammar.SchemaHostAloneRejected` | tools/parse_requestline.c:161-194 | schema://host with neither port nor loc is rejected at the blank, because st_host falls through into st_colon_before_port |
| `RequestGrammar.OverrunIff` | tools/parse_requestline.c:59-318 | on any line a buffer is overrun if and only if the line is longer than it and the scanner, given room for the whole line, copies a component that does not fit |
| `RequestGrammar.LineOverrunsIff` | tools/parse_requestline.c:59-318 | on a line of the grammar a buffer is overrun if and only if a component does not fit |
| `RequestGrammar.NoTargetRejected` | tools/parse_requestline.c:92-227 | a line without a target is rejected, its version being taken for a host and a loc |
| `RequestGrammar.ClassesAre` | tools/parse_requestline.c:69-277 | isspace, isdigit, isalnum and the range A to Z as alphabets and codes |
| `RequestParser.Parse` | tools/parse_requestline.c:59-318 | the in-place parser with its cursors returns what the scanner says on every line, and leaves in every buffer the component read or its old contents; Undefined tells that a component longer than its buffer is about to be copied |
| `RequestParser.ParseMeaning` | tools/parse_requestline.c:59-318 | 0 is returned exactly on the lines of the grammar that fit, and then the buffers hold the components, those of absent ones unchanged |
| `RequestParser.MethodAccepted` | tools/parse_requestline.c:77-91 | GET, POST, CONNECT and HEAD with any loc without white space and HTTP/1.1 are accepted and come back, and a loc of more than 1023 characters overruns its buffer |
| `RequestParser.OtherMethodRejected` | tools/parse_requestline.c:69-91 | a line that begins with any other word is rejected, whatever follows it, unless the word is in capitals and has more than 1023 of them |
| `RequestParser.FullUrlAccepted` | tools/parse_requestline.c:92-289 | method, schema://host:port/loc and HTTP/1.1, in any letters and digits, come back component by component |
| `RequestParser.OverrunsIff` | tools/parse_requestline.c:59-318 | the outcome on a line of the grammar is Undefined if and only if some component has more than 1023 characters, so never on a line of at most 1023 |
| `RequestParser.LongLocOverruns` | tools/parse_requestline.c:215-222 | for example every loc of 1024 characters or more overruns its buffer |
| `RequestParser.HostHasNoNewline` | tools/parse_requestline.c:104-184 | the host of a line with a newline at its end only holds none |
| `RequestParser.RoundTrip` | tools/parse_requestline.c:92-289 | printing any well-formed component tuple and parsing it gives the same components |
| `RequestParser.AbsoluteFormAccepted` | tools/parse_requestline.c:128-227 | of the targets of section 5.3 of RFC 7230, those that are schema://host alone are rejected, and all others accepted |
| `RequestParser.RootUrlRejected` | tools/parse_requestline.c:161-194 | for example GET http://example.com HTTP/1.1 is rejected |
| `RequestParser.OriginFormStable` | proxy.c:518-518 | the line doit sends upstream parses to the same method, loc and version and writes neither schema, host nor port |
| `RequestParser.OriginFormIff` | proxy.c:518-518 | the line doit sends upstream is one the parser accepts if and only if the client's line had a loc |
| `RequestParser.HostAloneSendsNoLoc` | proxy.c:518-518 | for example GET example.com HTTP/1.1 is accepted, and what is sent upstream for it would not be |
| `Rio.Reader.RioRead` | csapp.c:805-830 | a read through the buffer hands out the next bytes of the stream, across refills of any size and interruptions |
| `Rio.Reader.ReadNb` | csapp.c:849-864 | on every script of read() results the same bytes, count and failure as reading n bytes of the plain stream, leaving the same rest |
| `Rio.Reader.ReadLineB` | csapp.c:871-893 | on every script of read() results the same line, count and failure as reading a line of the plain stream, the rest of the user's buffer unchanged |
| `Rio.ReadN` | csapp.c:749-768 | the unbuffered read delivers the same as the buffered one on the same script |
| `Rio.Sink.Writen` | csapp.c:775-792 | writes the whole data if no write fails for good, and otherwise a prefix of it and returns -1 |
| `Rio.SentWholeIff` | csapp.c:775-792 | of a series of rio_writen everything arrives, in order, if and only if none gives up; otherwise bytes are missing |
| `Rio.ReliableSendsWhole` | csapp.c:775-792 | a condition that can be checked before writing: if no write fails but by an interruption, every series arrives whole |
| `Rio.RefusalLoses` | csapp.c:775-792 | for example a descriptor that takes one byte and then has no room gets ac for ab and c |
| `Rio.TakeNConserves` | csapp.c:849-864 | what a read of n bytes delivers, followed by what it leaves, is the stream |
| `Rio.TakeNSplits` | csapp.c:849-864 | two reads in a row deliver what one longer read delivers |
| `Rio.TakeLineConserves` | csapp.c:871-893 | what a line read delivers, followed by what it leaves, is the stream |
| `Rio.TakeLineShape` | csapp.c:871-893 | a line goes up to and including the first newline, or is cut off after maxlen - 1 bytes |
| `Rio.Session` | csapp.c:805-893 | any series of calls of rio_readnb and rio_readlineb on a reader gets the counts and bytes of the plain stream, and bytes delivered followed by the stream left are the stream |
| `Numerals.NumeralValue` | csapp.c:246-248 | the digits have the value of the number, are digits of the base, and do not begin with a zero |
| `Numerals.TextRoundTrip` | csapp.c:238-255 | the text determines the number, and takes at most 65 bytes with its NUL |
| `Numerals.StrLen` | csapp.c:258-265 | the length of the string in the buffer |
| `Numerals.Reverse` | csapp.c:226-235 | reverses the string in place and leaves the rest of the buffer |
| `Numerals.Ltoa` | csapp.c:238-255 | leaves the text of v in the buffer, for every long but the least, whose negation overflows |
| `Numerals.HexToNum` | proxy.c:858-869 | -1 exactly for characters that are no hexadecimal digits, so that line 845 never returns -1 |
| `Numerals.HexToNumIs` | proxy.c:858-869 | the value of every digit is its place in 0123456789abcdef or in 0123456789ABCDEF, and every other character gives -1 |
| `Numerals.GetChunkSize` | proxy.c:837-849 | the value of the leading hexadecimal digits; no intermediate result exceeds an int if the value does not |
| `Numerals.SpellingRoundTrip` | proxy.c:837-849 | reading back a number written in base 16 with any of its letters in capitals gives the number |
| `Numerals.ChunkSizeRoundTrip` | proxy.c:837-849 | and so does reading back what sio_ltoa prints in base 16 |
| `Chunked.ForwardChunked` | proxy.c:797-828 | on every stream, failing or broken off, the function ends as specified turn by turn: it returns, runs into undefined behaviour, loops for ever or fails its assertion; and it has passed on the portions specified |
| `Chunked.StuckForEver` | proxy.c:800-817 | the function is said to loop for ever only where any number of turns of its loop leads back to the same sum, buffer and stream |
| `Chunked.TurnsAtEnd` | proxy.c:800-817 | at the end of the stream n turns leave the buffer as it is and add n times the size read from it, as long as the sum is an int |
| `Chunked.BodyPasses` | proxy.c:797-828 | of a well-formed body it consumes exactly the bytes, returns the sum of the chunk sizes and passes on all but the size lines of the chunks before the last, if and only if that sum is an int |
| `Chunked.OneChunkIff` | proxy.c:797-828 | a body of one chunk, written out byte by byte, is passed on without its size if it has at most 8190 bytes, and otherwise overruns the buffer |
| `Chunked.AtEndOfStream` | proxy.c:800-817 | at the end of the stream the loop ends as after the last-chunk line if its buffer still holds one, never ends if and only if the buffer holds another text with a size of zero, and otherwise the sum of sizes overflows; nothing more is written |
| `Chunked.BrokenOff` | proxy.c:800-817 | a body that breaks off in or right behind the data of a chunk that do not begin with a zero: everything read is passed on but the size lines, and then the loop never ends if the data do not begin with a hexadecimal digit, and the sum of sizes overflows if they do |
| `Chunked.TwoBrokenOff` | proxy.c:800-817 | for example after the chunk xyz the loop never ends, and after the chunk abc the sum overflows |
| `Chunked.ForwardedVerbatimIffNoChunks` | proxy.c:801-816 | what is written is what was read if and only if there is no chunk but the last |
| `Chunked.ChunkSizeIsLost` | proxy.c:801-816 | for example the size line of a chunk of three bytes is not forwarded |
| `Chunked.BodyUnique` | proxy.c:797-828 | a stream begins with at most one chunked body, so exactly one body has one meaning |
| `Headers.ReadBlockOfLines` | proxy.c:712-768 | a block of complete lines is read line by line up to its empty line, if and only if every value fits its field of 96 bytes and every length is an int |
| `Headers.SpillsIff` | proxy.c:754-765 | the loop runs into undefined behaviour if and only if some line holds a Transfer-Encoding or Trailer of 96 characters or more or a Content-length beyond the ints |
| `Headers.LongEncodingSpills` | proxy.c:763-765 | for example on a transfer encoding of 400 characters |
| `Headers.BigLengthSpills` | proxy.c:758-761 | for example on a content length of ten digits that begins with 3 or more |
| `Headers.FilterLines` | proxy.c:734-767 | on lines that can be noted the loop is a filter that keeps the order: it passes on all lines but Connection and Proxy-Connection, notes a close exactly if one of these said so, and keeps the last Content-length, Transfer-Encoding and Trailer |
| `Headers.HeaderPortionsOfLines` | proxy.c:712-768 | what is passed on for complete lines that can be noted is the kept lines in order and then the empty line, or the host text twice if no Host line came |
| `Headers.BlankLineIffHost` | proxy.c:725-733 | what is due for complete header lines ends with the empty line if and only if a Host line came |
| `Headers.NoHeaderLines` | proxy.c:725-733 | for example a request without header lines is forwarded with the host twice and no empty line |
| `Headers.ForwardHeaderLines` | proxy.c:712-768 | the loop over rio_readlineb does what the filter says on every stream without read errors, including one that ends early or holds a value that cannot be noted |
| `Headers.ForwardBody` | proxy.c:772-784 | the body passed on is the chunked one, or as many bytes as announced, or a refusal that closes both sides; a length that is negative or the greatest int is undefined behaviour |
| `Headers.CountedIff` | proxy.c:775-779 | a counted body is sent as received if and only if all of it came |
| `Headers.TwoOfThree` | proxy.c:775-779 | for example the third of three bytes is not the sender's if only two come |
| `Headers.ForwardRequestHeader` | proxy.c:699-787 | what is passed on to the server is the close lines, the filtered header lines and the body due; if the function returns, the flags and the result follow from the block and the body |
| `Headers.ForwardReply` | proxy.c:595-687 | what is passed on to the client is the status line, the close lines if it is to close, the filtered header lines and the body due; a reply that breaks off is noted as the client's shutting down |
| `Headers.RefusedIff` | proxy.c:758-784 | after lines that can be noted a body is refused if and only if no line is named exactly Content-length and the last Transfer-Encoding is not chunked |
| `Headers.UsualSpellingRefused` | proxy.c:758-784 | so a body announced as Content-Length, the usual spelling, is refused |
| `Messages.AtoiOfText` | proxy.c:660-660 | a number printed in decimal is read back, with a sign or without and whatever stands behind it but a digit |
| `Messages.IsWordIff` | proxy.c:754-754 | two words are taken for the same if and only if they have the same letters, in capitals or not |
| `Messages.PlainLineMakes` | proxy.c:734-767 | what a line of a name and a word does, by the texts of both: whether it can be noted, is passed on, says close, names the host, a length, an encoding or a trailer |
| `Messages.LengthAnnounced` | proxy.c:758-784 | after lines of which the last Content-length holds n in decimal, and without a chunked encoding, exactly n bytes are due if n is at most 2147483646; the greatest int, and anything beyond, is undefined behaviour |
| `Messages.RequestSent` | proxy.c:518-523 | for a request of complete lines the server gets method, loc and version, the two close lines, the lines kept, the empty line or the host twice, and, of a POST only, the body: the chunked one, n bytes, or a refusal |
| `Messages.ReplySent` | proxy.c:595-687 | for a reply of complete lines the client gets the status line, the two close lines exactly if its connection is about to be closed, the lines kept, the empty line, and the body: the chunked one, n bytes, or a refusal |
| `Messages.VersionOfStatus` | proxy.c:609-612 | the version of a reply is the first word of its status line |
| `Exchange.SendRequest` | proxy.c:518-523 | the server gets the request line in origin form, the close lines, the header lines and the body |
| `Exchange.Serve` | proxy.c:514-538 | a GET or POST as a whole, whatever the uninitialised buffers of the two functions hold: what is passed on to the server and to the client, how it ends, and that a client whose request and reply return is closed if and only if one of them asks for it |
| `Exchange.RequestBreaksIff` | proxy.c:699-787 | a request of complete lines runs into undefined behaviour before its body if and only if a value cannot be noted or a POST that is not chunked has a bad length |
| `Exchange.LongEncodingBreaks` | proxy.c:754-765 | for example a GET with a transfer encoding of 400 characters, in which no line says close |
| `Exchange.RequestClosesIff` | proxy.c:699-787 | otherwise it closes the connection if and only if a line says close, or it is a POST that is not chunked and has no recognised length or sends not one byte |
| `Exchange.LastReplyIff` | proxy.c:614-619 | the client is told close with the reply if and only if its request says close or is a POST that is not chunked and has no recognised length |
| `Exchange.ReplyClosesIff` | proxy.c:595-687 | a reply of complete lines runs into undefined behaviour before its body if and only if a value cannot be noted or the length of a body that is not chunked is bad, and closes the client's connection if and only if every value can be noted, no line is named exactly Content-length and the last Transfer-Encoding is not chunked, whatever its lines say about the connection |
| `HashMap.HashInRange` | tools/concurrent_hashmap.c:103-105 | the hash is the index of a bucket if and only if the key is not negative or is a multiple of the number of buckets |
| `HashMap.RemainderIs` | tools/concurrent_hashmap.c:103-105 | the hash is the remainder as C defines it, for keys of either sign |
| `HashMap.HashMap.constructor` | tools/concurrent_hashmap.c:56-82 | a new map is empty, and the number of its buckets is the next multiple of 7 beyond its capacity |
| `HashMap.HashMap.GetEntry` | tools/concurrent_hashmap.c:158-172 | null exactly for an absent key, otherwise the entry of the key in the chain of its bucket, holding its value |
| `HashMap.HashMap.Put` | tools/concurrent_hashmap.c:131-156 | acts as an update of a finite map, and answers 1 exactly for a new key |
| `HashMap.HashMap.PutIfAbsent` | tools/concurrent_hashmap.c:107-129 | adds a key that is absent and changes nothing otherwise |
| `HashMap.HashMap.Get` | tools/concurrent_hashmap.c:183-191 | the value of the key, or -1 |
| `HashMap.HashMap.ContainsKey` | tools/concurrent_hashmap.c:174-181 | 1 exactly for a present key |
| `HashMap.HashMap.Remove` | tools/concurrent_hashmap.c:193-216 | takes the key out of the map, answers 1 exactly for a present key, and frees one entry in that case |
| `HashMap.HashMap.Size` | tools/concurrent_hashmap.c:218-220 | the number of keys |
| `HashMap.HashMap.Destroy` | tools/concurrent_hashmap.c:84-101 | after it every entry that was ever allocated has been freed, and exactly once |
| `HashMap.HashMap.OnePlacePerKey` | tools/concurrent_hashmap.c:56-216 | chains are disjoint and without cycles, and a key sits once in the bucket of its hash if the map has it, and nowhere otherwise |
| `HashMapSteps.StepGrows` | tools/concurrent_hashmap.c:107-172 | chains only grow, so that the entry a lookup has found is still in its chain, with its key, when the thread comes back to it |
| `HashMapSteps.PresentStays` | tools/concurrent_hashmap.c:107-172 | a present key stays present in every schedule of put, putIfAbsent and get |
| `HashMapSteps.RunIsAtomic` | tools/concurrent_hashmap.c:107-191 | if no two threads are ever about to insert the same key, keys stay unique and map and results are those of atomic operations in the order of their returns |
| `HashMapSteps.RunFromEmptyIsAtomic` | tools/concurrent_hashmap.c:56-191 | and so for every run from the map that hashmap_init leaves |
| `HashMapSteps.FinishIff` | tools/concurrent_hashmap.c:113-154 | the second phase keeps the keys unique and returns the right result if and only if the key of a new entry is not in the chain by then |
| `HashMapSteps.CompletesIff` | tools/concurrent_hashmap.c:107-156 | every way of completing the operations under way keeps the map atomic if and only if no two of them insert the same key and none inserts a present key |
| `HashMapSteps.TwoPutsDuplicate` | tools/concurrent_hashmap.c:131-156 | two puts of an absent key that both look it up first both answer 1 and leave the key in the chain twice |
| `StartUp.RunInv` | proxy.c:112-152 | the invariant of the index hand-off holds in every state of every schedule |
| `StartUp.DistinctIndices` | proxy.c:112-116 | as long as no worker has read the variable after its lifetime, every worker reads its own index; and the variable is not written while a worker has yet to read it |
| `StartUp.ReadIff` | proxy.c:114-115 | a worker is sure to read its own index if and only if main has not left the iteration in which it created the worker, which ends the lifetime of the variable |
| `StartUp.AnyIndexPossible` | proxy.c:114-115 | main does not wait for that: for every worker there is a schedule in which what it takes for its index is any number |
| `StartUp.AllKnowBeforeFirstConnection` | proxy.c:126-130 | when main has passed the lock for a connection every worker has read an index, which is its own if none has read late |
| `StartUp.NoDeadlock` | proxy.c:112-130 | while main waits for the mutex, the worker it has created last can go on, and after two of its steps the mutex is free |
| `StartUp.AssertionIff` | proxy.c:146-152 | if no worker has read late, the assertion on epoll_list holds for the connection that follows k others if and only if worker k modulo the number of workers has stored its epoll descriptor |
| `StartUp.AssertionCanFail` | proxy.c:146-146 | a connection that comes early enough makes the assertion fail, for any number of workers, though none reads late |
| `Tunnel.Pump` | proxy.c:285-305 | one event: the portions read up to and including the first read that is not a full buffer are passed to rio_writen for the other peer, in order; what is left is what comes behind that read, and the loop is to end if and only if it was an end of file |
| `Tunnel.OneEventReads` | proxy.c:285-305 | what that means: only full buffers before the read where it stops, one portion for each read that gave bytes |
| `Tunnel.BatchMeetsEof` | proxy.c:282-331 | the events of one epoll_wait are all handled, and stop the loop if and only if one of them reads an end of file |
| `Tunnel.TunnelStops` | proxy.c:277-332 | the batches handled are those up to and including the first one that meets an end of file, or all |
| `Tunnel.TunnelCarries` | proxy.c:277-332 | in both directions what has been passed on, followed by what is left to read, is what the peer has sent |
| `Tunnel.CarriesIff` | proxy.c:301-301 | what arrives and what is left to read make up the input if and only if no rio_writen gives up |
| `Tunnel.TunnelLoses` | proxy.c:301-301 | for example a peer whose descriptor has no room for a moment gets ac for abc |
| `Tunnel.ConnectHandler` | proxy.c:244-337 | whatever happens, the client, the server and the tunnel's epoll descriptor are closed and nothing else; and what is written to each peer, and what is left to read from it, are those of the events up to the batch that meets an end of file |
| `Doit.Doit` | proxy.c:438-568 | a request is read, parsed and served: by the method and the version read, and by whether the host is reached at its port or at 80, it is refused with 400, 404 or 501, copied, tunnelled or exchanged, with the outputs of both peers and the descriptor calls written out; if everything returns, the client is closed or re-armed and no other descriptor has been opened or closed; no close fails |
| `Doit.RequestDecided` | proxy.c:470-560 | that decision in terms of the fields read and of the outputs |
| `Doit.RequestCloses` | proxy.c:470-560 | and of the descriptor calls |
| `Doit.FirstPortionParses` | proxy.c:478-519 | what the server is sent first is a request line that the parser accepts, with the same method, loc and version, if and only if the client's line had a loc |
| `Doit.ReplyNonconnection` | proxy.c:577-584 | everything the server sends is passed on to the client |
| `Doit.EveryPlanIsSound` | proxy.c:438-568 | every plan uses only open descriptors, closes each server and tunnel it opens once, and parts with the client once |
| `Connections.RunInv` | proxy.c:118-228 | the ownership invariant holds in every state of every run of main and any number of workers |
| `Connections.EveryConnectionHasOnePlace` | proxy.c:126-228 | an accepted connection is always in exactly one place: with main, armed, ready or served at the worker whose turn it was, or closed |
| `Connections.NeverCrashes` | proxy.c:126-228 | no close fails, no descriptor is registered twice and no re-arming misses |
| `Connections.ClosesItsOwn` | proxy.c:438-568 | what a worker closes or re-arms is open and its own at that moment, though numbers are used again by other threads in between |
| `Connections.NothingLeftBehind` | proxy.c:438-568 | a worker that has finished serving holds no server, tunnel or client descriptor |
| `Connections.ServiceAdvances` | proxy.c:438-568 | a worker that serves can always take its next step, and has one step fewer left |
| `Connections.GivesAreShares` | proxy.c:126-152 | in every run, the number of steps in which main has given worker k a connection is its share of those given away in turn |
| `Connections.GivesDifferByOne` | proxy.c:126-152 | at every moment of every run the numbers of connections given to two workers differ by at most one |

## Left out

- Memory: failing allocations, a pool that is only partly created, what is freed while another thread still uses it in `bqueue_destroy` and `threadpool_destroy`, and a stack too small for a long body.
- `printf`, `perror` and the process exits they announce.
- `bqueue_init` does not set its fields; the queue is taken to start zeroed, as is the connection status that `doit` allocates.
- The protocols are sequentially consistent; the unlocked reads of the shutdown flag at tools/threadpool.c:176 and of an entry's value at tools/concurrent_hashmap.c:189 are single steps.
- RequestParser.Parse: after a component has overrun its buffer nothing is said about the memory behind it. Lines hold no NUL.
- RequestParser.OriginFormStable: the loc buffer is taken to be empty before the parse, since the source does not clear it.
- RequestParser.OriginFormIff: the same.
- Rio.Sink.Writen: a write that returns 0 without an error is treated as one that fails.
- Numerals.Ltoa: the least long is excluded, because line 244 overflows on it.
- Chunked.ForwardChunked: the uninitialised sum starts at 0.
- Headers.ForwardRequestHeader: streams with read errors are excluded, because after one the source goes on with the old contents of its buffer.
- Headers.ForwardReply: the same streams are excluded.
- Headers.ForwardHeaderLines: the same.
- Exchange.Serve: the same.
- Doit.Doit: the same; what is read from the two ends of a tunnel is a script of its own, beside the buffered reader, and which hosts are reached at which ports is given.
- The HTML body that `clienterror` prepares and never sends, and the functions of proxy.c marked as old versions.
- Pipelined requests: each request starts with an empty buffer, so bytes read ahead are lost.
- HashMap.HashMap.Remove: sequential only; while other threads change the chain, the predecessor found under the read lock may be stale.
- HashMapSteps.RunIsAtomic: `size` is left out, because threads in different segments update it without a common lock.
- The capacity of the hash map is small enough for an int, and there is one live map.
- StartUp.AssertionIff: after a late read of the index nothing is said about `epoll_list`, which the worker may then write at any index or outside its bounds.
- Tunnel.ConnectHandler: setting up the tunnel's epoll descriptor succeeds; the test at proxy.c:249 looks at another descriptor.
- Connections.RunInv: the listening descriptor and the epoll descriptors of main and of the workers are not in the table; main exits of its own accord in none of the modelled steps, and a request that runs into undefined behaviour or never returns is not among the plans.
- Sockets, DNS, epoll and fcntl beyond registered, armed and open descriptors, and the other wrappers of csapp.c, which are single calls into the C library.
