# A model of waitress's connection engine

Waitress is a WSGI server with one main thread, which owns the sockets, and a pool of worker threads, which run the
application. This project models what happens to the bytes of a connection and to the threads that handle them:

- **Reading.** Bytes from the socket pass through the request parser and its two body receivers, which can stop at any
  byte and go on with the next piece. The reference is a machine that takes one byte at a time (`Requests`,
  `ChunkedCoding`), which in turn agrees with a decoder that sees the whole chunked message at once. The classes
  `ChunkedReceiver`, `FixedStreamReceiver`, `HTTPRequestParser` and the reading half of `HTTPChannel` are proved to be in
  step with that machine for every cut of the stream.
- **Clients.** What clients may send is data that is written out, not read: size lines with their extensions and trailers
  (`ClientChunks`), request lines and fields with padding, folding and any letter case (`ClientHeads`), whole requests with
  empty lines between them (`ClientRequests`). Digits, letters and characters come from tables (`Spelling`). The readers
  of the server are proved to accept all of it for what it says; those of extensions, fields, continuation lines and
  request lines, and that of size lines, accept nothing else.
- **Buffers.** `OverflowableBuffer` and the file buffers are byte queues in all their stages.
- **Writing.** `ChannelOutput` is the writing half of `HTTPChannel` as one thread runs it. Its ghost field `accepted` is
  everything that `write_soon` and `send_continue` took; while the channel is connected, the bytes on the wire followed by
  the unread bytes of the outbufs are exactly that, for every undisturbed call.
- **Responses.** `WSGITask` runs an application given as a list of actions (calls of `start_response` and `write`, pieces of
  the iterable, exceptions, each caught or not). A client that reads by section 6.3 of RFC 9112 is a function of the
  output, with its own rules for status codes and field names; it recovers what the application gave.
- **The pool.** `ThreadedTaskDispatcher` has one method for each lock section, each proved to be a step of the state machine
  `Pool`, whose runs are all interleavings.
- **The channel under threads.** `ChannelMachine` has one step for each lock section of the main thread and of any number of
  workers, with `wait()` splitting a step. Where the code takes no lock the steps are smaller: `handle_write` looks for
  requests, tests flags and closes in steps of its own, and its flush without the lock goes operation by operation (`get`,
  `send`, `skip`, the tests and the pop), as does the flush of a worker with a late 100 Continue. The claims hold in every
  state of every run. `SharedOutbufs` and `ChannelWire` follow the single bytes of the output through these runs, and
  `ChannelProgress` says what gets done: which steps are possible and where they lead.

Functions give the meaning of states and the expected results; the methods of the classes are proved equal to them, and
the lemmas are about them. `hide` statements keep single proofs small.

Where the code and RFC 9112 differ the model follows the code. An empty line is skipped where a chunk size is expected; a
line of hexadecimal digits may end in one extra LF, because `$` in a regular expression also matches before it. After an
error inside a chunked body a call reports more bytes than the decoder has looked at, and since the body limit is looked at
before the chunk error, the same bytes can be refused with 413 in one cut and with 400 in another.
`RefusalDependsOnTheCut` is an example, and `RefusalByCut` gives the exact condition in terms of state and data. They are
refused in every cut.

That every accepted byte goes out once and in order is not true in every run. A worker that has popped its last request and
sends a late 100 Continue holds the outbuf lock, but the main thread, which finds no request, flushes without it. Both can
take the same bytes before either has skipped them: `ByteIsSentTwice` is such a run, and `WholeExactlyWithoutRace` says
exactly which steps go wrong. Without such an overlap all is well (`WholeWithoutOverlap`).

The claim that no worker waits forever is not true everywhere. It holds for every wait inside `write_soon`. At the end of
`service` the flush is tried before the connection is looked at again: if the client leaves in between, the flush fails and
the worker waits on a channel that nobody will notify. `StuckWaitIsReachable` is such a run, and
`WokenOnlyWhileConnected` says exactly when a waiting worker can still be woken by an idle main thread.

## Model

| member | source | states |
|---|---|---|
| ChunkedCoding.DecoderMeetsOneShot | src/waitress/receiver.py:80-191 | main result: for every byte string and every cut of it into pieces, the resumable decoder ends with the body, the verdict (ended, short, or which error) and, when it ended, the number of bytes used that the one-shot decoder of section 7.1 of RFC 9112 finds in the joined string |
| ChunkedCoding.CutIndependence | src/waitress/receiver.py:80-191 | the fold law of the decoder: feeding piece by piece gives the same state and total consumed as feeding the joined bytes; with the contract of the receiver it is its independence of the cut |
| ChunkedCoding.FeedSplit | src/waitress/receiver.py:80-191 | feeding a + b is feeding a and then b, and the bytes consumed add up |
| ChunkedCoding.FeedPrefix | src/waitress/receiver.py:143-156 | bytes beyond the one at which the decoder halts change neither its state nor what it has taken |
| ChunkedCoding.FeedKeepsWf | src/waitress/receiver.py:66-70 | after any bytes the carry-overs are minimal: no CR LF in a pending control line, fewer than two bytes at a chunk end, no blank line in a pending trailer |
| ChunkedCoding.FeedLine | src/waitress/receiver.py:120-163 | whatever part of a size line was carried over, bytes up to its CR LF are read as that one line and the rest is fed on; without a CR LF all of it is carried over |
| ChunkedCoding.FeedData | src/waitress/receiver.py:91-101 | chunk data is passed through unchanged up to the announced size and not beyond |
| ChunkedCoding.FeedDataEnd | src/waitress/receiver.py:102-119 | after chunk data exactly CR LF is accepted, even when it arrives in two pieces; anything else is an error that keeps the body |
| ChunkedCoding.FeedTrailer | src/waitress/receiver.py:165-189 | the message ends at a bare CR LF or at the first blank line, wherever the pieces were cut, and nothing after it is taken |
| ChunkedCoding.DecodeFrom | src/waitress/receiver.py:80-191 | the same as the main result for a body begun earlier: what is decoded is appended to it |
| ChunkFraming.HexRoundTrip | src/waitress/task.py:322 | the size written in upper-case hexadecimal is the size read |
| ChunkFraming.SizeLineRoundTrip | src/waitress/task.py:322 | the size line of a written chunk passes the syntax check of the receiver and announces the same size |
| ChunkFraming.DecodeEncode | src/waitress/task.py:304-306 | the one-shot decoder reads the encoding of any list of non-empty chunks as their concatenation and stops exactly at its end, whatever follows |
| ChunkFraming.ChunksReadBack | src/waitress/receiver.py:80-191 | main result: under every cut of an encoding and what follows it, the receiver completes without error with the concatenated chunks and takes the encoding and none of what follows |
| ChunkFraming.UpperHexSpells | src/waitress/task.py:322 | the digits written spell the number by a table of digits, in upper case |
| Spelling.HexSpelling | src/waitress/receiver.py:152-160 | for every byte string and number: the size read is that number exactly when the string spells it by a table of digits, in either case of letters and with any leading zeros |
| Spelling.DecimalSpelling | src/waitress/parser.py:348-351 | the same for a Content-Length in base ten |
| Spelling.TextCase | src/waitress/parser.py:237-252 | texts are equal in upper case, and in lower case, exactly when they are equal but for letter case by a table of letters |
| Spelling.TokenChars | src/waitress/rfc7230.py:21-24 | the characters of a token are those that the grammar lists |
| ClientChunks.SizeLineMeaning | src/waitress/receiver.py:131-163 | main result: a control line announces n exactly when its digits, up to one final LF, spell n and nothing or extensions follow; it is passed over exactly when it is empty, and refused for its extensions exactly when there is a semicolon and what starts there are none |
| ClientChunks.ExtensionsAccepted | src/waitress/rfc7230.py:56-75 | every list of extensions, with no value, a token or a quoted string, is accepted as a client writes it, also with one final LF |
| ClientChunks.ExtensionsRead | src/waitress/rfc7230.py:56-75 | and whatever is accepted is such a list, but for one final LF |
| ClientChunks.DecodeBody | src/waitress/receiver.py:80-191 | any chunked body as clients may write it (sizes in either case with leading zeros, extensions, trailer lines) decodes to the data of its chunks and ends where it ends, whatever follows |
| ClientChunks.ClientChunksReadBack | src/waitress/receiver.py:80-191 | main result: the same for the receiver, under every cut of that body and what follows it |
| ChunkedCoding.ReportedBounds | src/waitress/receiver.py:102-191 | a call never reports fewer bytes than the decoder takes, nor more than it was given |
| Files.FileBasedBuffer.constructor | src/waitress/buffers.py:28-41 | the copy loop moves the whole contents and the read position, and leaves the source as it was |
| Files.FileBasedBuffer.Append | src/waitress/buffers.py:49-55 | appended bytes join the end of what is unread; the read position stays |
| Files.FileBasedBuffer.Get | src/waitress/buffers.py:57-70 | the first n unread bytes, or all for a negative n; they are consumed exactly when asked to |
| Files.FileBasedBuffer.Skip | src/waitress/buffers.py:72-78 | drops n unread bytes, or fails and changes nothing when there are fewer |
| Files.ReadOnlyFileBasedBuffer.Prepare | src/waitress/buffers.py:155-166 | the bytes offered are those from the position on, cut at the declared size, and the position is where it was; a file that cannot seek offers what it did before |
| Files.ReadOnlyFileBasedBuffer.Get | src/waitress/buffers.py:168-180 | reads never go past the declared size, even when the file is longer; except for a number below -1, which reads the file to its end |
| Files.ReadOnlyFileBasedBuffer.Skip | src/waitress/buffers.py:72-78 | drops n offered bytes, or fails and changes nothing when there are fewer |
| Buffers.OverflowableBuffer.Append | src/waitress/buffers.py:261-275 | through every stage the unread bytes grow by exactly the argument; the byte string is left at 8192 bytes, and a temporary file comes in exactly when the unread bytes reach the overflow limit |
| Buffers.OverflowableBuffer.Get | src/waitress/buffers.py:277-284 | a prefix of the unread bytes, not empty when there are any; exactly min(n, length) of them once the buffer has a file or the bytes are consumed |
| Buffers.OverflowableBuffer.Skip | src/waitress/buffers.py:286-296 | drops n unread bytes in every stage, or fails and changes nothing |
| Buffers.OverflowableBuffer.GetFile | src/waitress/buffers.py:316-320 | the file stands at the first unread byte and holds the unread bytes to its end |
| Buffers.OverflowableBuffer.CreateBuffer | src/waitress/buffers.py:229-239 | leaving the bytes stage changes nothing that can be read |
| Buffers.OverflowableBuffer.SetLargeBuffer | src/waitress/buffers.py:251-259 | migration to a temporary file keeps contents and read position and closes the old file |
| Buffers.OverflowableBuffer.InMemory | src/waitress/buffers.py:229-275 | in every reachable state the unread bytes outside a temporary file are fewer than 8192 or fewer than the overflow limit |
| Buffers.OverflowableBuffer.Length | src/waitress/buffers.py:215-222 | the length is that of what is unread |
| Buffers.OverflowableBuffer.Close | src/waitress/buffers.py:322-325 | the file is closed, while a byte-string stage keeps its bytes |
| Receivers.FixedStreamReceiver.Received | src/waitress/receiver.py:32-52 | takes exactly the bytes that are still missing, appends them to the body, and is completed when none is missing |
| Receivers.ChunkedReceiver.Received | src/waitress/receiver.py:80-191 | main result: the fields stand for the byte-at-a-time decoder, the new state is that decoder fed with the data, and the number of bytes reported is a function of state and data alone: those the decoder takes; all of them after a bad size line; and after a bad chunk end up to the first blank line in what follows it, which the code takes for a trailer |
| Receivers.ChunkedReceiver.ReceiveData | src/waitress/receiver.py:91-101 | one turn inside a chunk leaves the outcome of the whole feed unchanged and takes at least a byte |
| Receivers.ChunkedReceiver.ReceiveChunkEnd | src/waitress/receiver.py:102-119 | one turn at a chunk end leaves the outcome of the whole feed unchanged, or records the bad terminator |
| Receivers.ChunkedReceiver.ReceiveControlLine | src/waitress/receiver.py:120-163 | one turn in a size line leaves the outcome of the whole feed unchanged and takes at least a byte |
| Receivers.ChunkedReceiver.BeginChunk | src/waitress/receiver.py:131-163 | a finished size line puts the fields where the decoder goes for that line: a chunk, the trailer, an error, or the next line |
| Receivers.ChunkedReceiver.ReceiveTrailer | src/waitress/receiver.py:165-189 | the body ends where the decoder ends it, with the same number of bytes consumed |
| Receivers.ChunkedReceiver.GetFile | src/waitress/receiver.py:193-194 | the file handed out holds the decoded body |
| Headers.GetHeaderLines | src/waitress/parser.py:409-433 | the loop joins continuation lines to the line before and refuses bare CR or LF and a leading continuation |
| Headers.CollectFields | src/waitress/parser.py:226-255 | the loop builds the dictionary: repeated fields are joined by commas, names with underscores dropped; at the first bad line or repeated singleton it stops with what it has |
| Headers.ParseBlock | src/waitress/parser.py:204-356 | the imperative parse of a header block gives the framing verdict and the dictionary of the specification, for every block, refused ones too |
| Headers.FramingFollowsTheRules | src/waitress/parser.py:279-356 | section 6.3 of RFC 9112: chunked exactly for an HTTP/1.1 request whose only transfer coding is chunked, 501 exactly for any other transfer coding, otherwise the Content-Length decides, and a malformed one is refused |
| Headers.DecimalRoundTrip | src/waitress/parser.py:200 | the decimal written into a header is read back as the number |
| Headers.SubstituteBlockIsEmpty | src/waitress/parser.py:120-127 | the block parsed in place of a header that is too large announces no body and leaves the dictionary empty |
| ClientHeads.KeyMeaning | src/waitress/parser.py:242 | the key of a header name is the name with underscores for dashes and upper-case letters, letter by letter of a table |
| ClientHeads.SameKey | src/waitress/parser.py:237-252 | names without underscores share a key exactly when they are equal but for letter case |
| ClientHeads.FieldAccepted | src/waitress/parser.py:226-241 | every field as a client writes it, with any blanks around its value, is read as its name and value |
| ClientHeads.FieldGrammar | src/waitress/parser.py:226-241 | and whatever is read as a field is a token, a colon and text between blanks |
| ClientHeads.FoldFields | src/waitress/parser.py:409-433 | fields cut into a first line and continuation lines are joined to their texts again, in order |
| ClientHeads.FoldRefuses | src/waitress/parser.py:409-433 | lines are refused exactly when one of them holds a bare CR or LF or the first that is not empty is a continuation |
| ClientHeads.Dictionary | src/waitress/parser.py:226-255 | main result: for every list of fields, the lines pass exactly when no field that may be sent once is sent again, in any letter case; the entry under each name is then the values of all its fields in order, joined by a comma and a space, and there is none when there is no such field |
| ClientHeads.CrackAccepted | src/waitress/parser.py:436-466 | every well-formed request line is taken apart as it was put together |
| ClientHeads.CrackGrammar | src/waitress/parser.py:436-466 | and whatever is accepted as a request line is one, without lower-case letters in its method |
| ClientRequests.HeadIsParsed | src/waitress/parser.py:204-262 | from the raw block of a well-formed head the parser gets its request line without the white space after it, and the texts of its fields |
| ClientRequests.HeadIsRead | src/waitress/parser.py:204-356 | main result: from the raw block, by the fields as the client wrote them and in any letter case: a repeated Host, Content-Length or Content-Type is refused; HTTP/1.1 with the one coding chunked is chunked and with any other coding 501; otherwise a Content-Length that spells n gives n bytes, none for 0, and one that spells nothing is refused; and the client is taken to wait for a 100 Continue exactly when it says so in HTTP/1.1 |
| ClientRequests.HeadersAreShown | src/waitress/parser.py:226-332 | what the application is shown under each name: the values of its fields, but for the transfer coding of an HTTP/1.1 request and a length that comes with chunks |
| ClientRequests.AcceptedIsWellFormed | src/waitress/parser.py:204-262 | whatever block is accepted has a well-formed request line, no bare CR or LF anywhere, and well-formed fields |
| Requests.StreamCutIndependence | src/waitress/channel.py:191-245 | the fold law of the stream reference: fed in pieces it is what it is fed at once |
| Requests.MessagesReadBack | src/waitress/channel.py:191-245 | main result: however a list of well-formed messages is cut, exactly those requests are enqueued, in order, with their decoded bodies, and nothing is pending |
| Requests.TransmissionReadsBack | src/waitress/channel.py:191-245 | the same for an uncut stream, after any requests queued before |
| Requests.ReadMessage | src/waitress/parser.py:85-202 | one well-formed message and anything after it: that request is enqueued and the rest is read as a new stream |
| Requests.SkipBlank | src/waitress/parser.py:129-144 | a header of blank lines alone is dropped and leaves the stream as it was |
| ClientRequests.RequestReadsBack | src/waitress/channel.py:191-245 | a request as a client writes it, with any number of empty lines in front and whatever follows: it is enqueued with the data it carries |
| ClientRequests.ClientRequestsReadBack | src/waitress/channel.py:191-245 | main result: for every list of requests as clients write them (any request line, fields in any letter case and folding, bodies counted or chunked as above, empty lines in between), and every cut of their bytes: exactly these requests are enqueued, in order, with their data, and nothing is left over; nothing about what the parser makes of them is assumed |
| ClientRequests.AskingSuspends | src/waitress/channel.py:210-224 | an HTTP/1.1 head that asks to be told to continue suspends the stream with what was queued before, whatever follows it |
| Requests.FeedRequestSplit | src/waitress/parser.py:85-202 | a request fed in two pieces is the request fed at once, and the bytes taken add up |
| Requests.FeedHeader | src/waitress/parser.py:98-174 | the header ends at the first blank line of carried-over and new bytes; the size limit applies to the header alone and at the same byte for every cut |
| Requests.HeaderPiece | src/waitress/parser.py:98-127 | in the header phase a call consumes the piece up to the blank line, at least one byte, and decides the size limit as the byte-at-a-time reader does |
| Requests.FeedFixed | src/waitress/parser.py:175-202 | a fixed-length body takes exactly the missing bytes and completes with them |
| Requests.FeedChunked | src/waitress/parser.py:175-202 | a chunked body completes or is refused as its decoder halts, unless the running byte count reaches the body limit first |
| Requests.StreamFollowsRequest | src/waitress/channel.py:210-243 | the stream moves with its pending request until that is over, and goes on with the bytes it left |
| Requests.StreamShift | src/waitress/channel.py:210-243 | requests queued earlier do not influence what is read |
| Requests.FeedRequestKeepsWf | src/waitress/parser.py:92-202 | whatever has been read, no header block or body is carried over whole and no limit has been passed unnoticed |
| RequestParsers.HTTPRequestParser.Received | src/waitress/parser.py:85-202 | main result: every call on non-empty data of an incomplete request consumes between 1 and all of its bytes, and the fields, the dictionary among them, then stand for the byte-at-a-time request fed with those bytes; except that a chunk error is refused with 413 instead of 400 if and only if the offending byte comes before the body limit and the bytes reported do not |
| RequestParsers.HTTPRequestParser.ReceiveHeader | src/waitress/parser.py:98-174 | the whole effect of a piece of the header on the fields, and the bytes consumed |
| RequestParsers.HTTPRequestParser.ReceiveFixed | src/waitress/parser.py:175-202 | the fixed-length phase of that claim |
| RequestParsers.HTTPRequestParser.ReceiveChunked | src/waitress/parser.py:175-202 | the chunked phase of that claim, with the exact condition of the refusal |
| RequestParsers.HTTPRequestParser.ParseHeader | src/waitress/parser.py:204-356 | sets up the receiver, the length and the expectation that the framing verdict for the block asks for |
| RequestParsers.HTTPRequestParser.Decide | src/waitress/parser.py:145-166 | which requests are over with their header: refused ones, those without a body, and those whose length reaches the limit |
| RequestParsers.HTTPRequestParser.FinishHeader | src/waitress/parser.py:129-169 | the whole effect of a complete header block on the fields |
| RequestParsers.HTTPRequestParser.CheckBody | src/waitress/parser.py:181-200 | the order of the checks after a piece of body: size limit, chunk error, completion with the new Content-Length |
| RequestParsers.HTTPRequestParser.GetBodyStream | src/waitress/parser.py:358-364 | the stream handed to the application yields exactly the decoded body, whichever stages its buffer went through |
| ParserStates.HeaderDoneTracks | src/waitress/parser.py:129-169 | after a header block the fields stand for what the byte-at-a-time reader makes of it |
| ParserStates.FixedPieceTracks | src/waitress/parser.py:175-202 | a piece of a fixed body moves fields and reader alike |
| ParserStates.ChunkPieceTracks | src/waitress/parser.py:175-202 | a piece of a chunked body moves fields and reader alike, up to the 400 that can become a 413; a completed request has the dictionary of its block with the decimal of its body length as CONTENT_LENGTH |
| ParserStates.RefusalByCut | src/waitress/parser.py:181-188 | from state and data alone: a call on a chunked body does what the byte-at-a-time reader does if and only if a chunk error, if there is one, is not found below the body limit while the bytes reported reach it; else it refuses with 413 |
| ParserStates.HeaderStepTracks | src/waitress/parser.py:98-174 | a piece of the header moves fields and reader alike |
| ParserStates.RefusalDependsOnTheCut | src/waitress/parser.py:181-188 | a concrete body refused with 400 in one cut and with 413 in another |
| Channels.HTTPChannel.Received | src/waitress/channel.py:191-245 | main result: on an open channel one call leaves the queue and the pending request that the stream reference gives, up to the first refused request or an expectation; it adds a task exactly when the queue stops being empty, ignores data exactly when the channel is about to close, and without an expectation never fails; with no 100 Continue sent for the pending request before, it sends one, or fails in sending it, exactly when the stream is suspended by an expectation with nothing queued |
| Channels.HTTPChannel.ReceiveAll | src/waitress/channel.py:191-245 | main result: any number of calls on an open channel, with workers popping served requests in between, leave what the joined stream gives: the requests served followed by those queued, and the pending one; only a stream with an expectation can end the reading early |
| Channels.ReceiveTwoCuts | src/waitress/channel.py:191-245 | main result: two open channels in the same state, fed with two cuts of one stream without expectations, agree on the requests up to the first that is refused, by both, and else on all of them and on the pending one |
| Channels.MatchesAgree | src/waitress/channel.py:191-245 | what two readings of one stream have in common |
| Channels.HTTPChannel.Serve | src/waitress/channel.py:497-499 | served requests leave the front of the queue; a refused one does not while the channel is open |
| Channels.HTTPChannel.ParseInStep | src/waitress/channel.py:210-243 | one turn of the loop stays in step with the stream reference, and by its end a line has been sent or has failed exactly when the stream is suspended with nothing queued |
| Channels.HTTPChannel.ParseOnce | src/waitress/channel.py:210-243 | one turn of the loop consumes at least a byte or follows a 100 Continue; it sends that line, or fails, exactly when the request expects it, its header is read, nothing is queued and none was sent; a finished request leaves the parser and is queued unless blank |
| Channels.HTTPChannel.TakeRequest | src/waitress/channel.py:226-239 | a finished request is queued in order; the task is added exactly when it is the only one |
| Channels.HTTPChannel.SendContinue | src/waitress/channel.py:173-189 | the line is accepted once, the expectation is dropped and the request marked incomplete, unless the send fails |
| Channels.ParseStep | src/waitress/channel.py:210-243 | one parse of the pending request moves the stream reference on by the bytes consumed |
| Channels.ToldInTime | src/waitress/channel.py:215-224 | whatever the bytes, the line is tried in the turn in which the stream reference meets the expectation, and in no other |
| Channels.ContinueLineReads | src/waitress/channel.py:181-182 | a client reads the line as an interim response of its own, whatever follows it |
| Channels.StaysInStep | src/waitress/channel.py:210-243 | whatever the channel does with the parsed request, queue and stream reference stay in step for the bytes that are left |
| Output.ChannelOutput.FlushSome | src/waitress/channel.py:260-307 | main result: for every pattern of partial, refused and failing sends a flush that no other thread disturbs ends; while connected, the wire and the unread outbufs still join to what was accepted and the length is exact; it ends in an exception exactly when a send raised, and the channel is closed exactly when a send found the client gone and closing was asked for; nothing is pending, and one outbuf left, exactly when no send took nothing |
| Output.ChannelOutput.DrainFront | src/waitress/channel.py:271-289 | sends the first outbuf until it is exhausted or a send takes nothing, at most one such send |
| Output.ChannelOutput.SendFront | src/waitress/channel.py:271-283 | the bytes that a send took leave the front of the queue and the total, and no others |
| Output.ChannelOutput.PopFront | src/waitress/channel.py:290-300 | an exhausted outbuf leaves the list and is closed; the last one never is |
| Output.ChannelOutput.FlushException | src/waitress/channel.py:122-138 | it ends with everything sent or after one send that took nothing; an exception is reported and makes the channel close exactly when a send raised, and loses no output; on a closed channel nothing is sent |
| Output.ChannelOutput.HandleClose | src/waitress/channel.py:309-321 | every outbuf is closed, though a byte-string stage keeps its bytes; nothing counts as pending and the channel is disconnected |
| Output.ChannelOutput.WriteSoon | src/waitress/channel.py:347-394 | main result: the bytes are accepted whole behind everything accepted before, or none is; on a connected channel at most the watermark and these bytes are pending afterwards, or the writer must wait for one of the two reasons; what reaches send_bytes is offered to the socket until it takes nothing; no outbuf is filled far beyond the watermark; the channel is marked for closing exactly when a send raised |
| Output.ChannelOutput.ResumeWrite | src/waitress/channel.py:403-417 | the same for a writer that has waited; it waits again only while too much is pending |
| Output.ChannelOutput.Accept | src/waitress/channel.py:366-389 | the bytes join the accepted output whichever outbuf takes them; when send_bytes is reached the socket is offered what is pending until it takes nothing, and else nothing is sent |
| Output.ChannelOutput.AcceptFile | src/waitress/channel.py:366-376 | a wrapped file is accepted as its unread bytes, with a fresh appendable outbuf behind it, and offered to the socket under the same condition |
| Output.ChannelOutput.FlushBelowHighWatermark | src/waitress/channel.py:396-417 | above the watermark it offers the output to the socket; it waits for the main thread exactly when a send raised, waits for the output to shrink exactly when it is still above the watermark, and else goes on |
| Output.ChannelOutput.SendContinue | src/waitress/channel.py:173-189 | the 100 Continue line joins the accepted output, which is offered to the socket until it takes nothing |
| Output.ChannelOutput.HandleWrite | src/waitress/channel.py:90-120 | run undisturbed: with no request queued, or with send_bytes pending and the lock free, the socket is offered the output until it takes nothing, and otherwise nothing is sent; no output is lost while connected; the channel is closed exactly when it was marked for that, a send raised or found the client gone, or it was to be closed once flushed and is; a locked flush below the watermark notifies |
| Dispatcher.ThreadedTaskDispatcher.HandlerSection | src/waitress/task.py:64-81 | one lock section of a worker is one step of the pool: it sleeps, exits or takes the oldest task |
| Dispatcher.ThreadedTaskDispatcher.TaskDone | src/waitress/task.py:82-85 | a worker whose task is over goes back to the top of its loop |
| Dispatcher.ThreadedTaskDispatcher.AddTask | src/waitress/task.py:106-109 | the task is queued last and one sleeper, if any, is woken |
| Dispatcher.ThreadedTaskDispatcher.SetThreadCount | src/waitress/task.py:87-104 | the loops start the missing threads under free, distinct numbers or mark the surplus to stop and wake every sleeper |
| Dispatcher.ThreadedTaskDispatcher.StartThreads | src/waitress/task.py:90-100 | as many threads as are missing, each under a number no thread has |
| Dispatcher.ThreadedTaskDispatcher.FreeNumber | src/waitress/task.py:94-95 | the search ends at a number that no thread has |
| Dispatcher.ThreadedTaskDispatcher.CancelPendingTasks | src/waitress/task.py:128-136 | the loop cancels every queued task once, in order |
| Pool.StepKeepsInv | src/waitress/task.py:64-138 | every step of workers, callers and shutdown keeps the bookkeeping and leaves no wakeup lost |
| Pool.RunKeepsInv | src/waitress/task.py:64-138 | so does every run |
| Pool.NoTaskIsForgotten | src/waitress/task.py:64-85 | main result: at every moment of every run, if a worker sleeps un-notified then the queued tasks are at most as many as the workers woken and not yet resumed; and none sleeps while threads are to stop |
| Pool.TasksAreConserved | src/waitress/task.py:64-138 | main result: started and cancelled tasks in order, followed by the queue, are the tasks added; threads minus the stop count is the requested count; active_count is the number of workers outside wait; thread numbers are distinct |
| Pool.FatesTellTheTruth | src/waitress/task.py:64-138 | main result: in every run the tasks recorded as started are exactly those that were put into the hands of workers, in that order, and those recorded as cancelled exactly those that shutdown found in the queue |
| Pool.CountNumbers | src/waitress/task.py:50-51 | the thread numbers are as many as the live threads |
| ChannelMachine.StepKeepsInv | src/waitress/channel.py:83-516 | every step keeps the invariant of the channel: the sections of the workers, the tests and sections of handle_write one by one, and every single operation of the flush without the lock and of a late 100 Continue |
| ChannelMachine.RunKeepsInv | src/waitress/channel.py:83-516 | so does every run, over all interleavings |
| ChannelMachine.ServedByOneWorker | src/waitress/channel.py:200-239 | main result: in every run the channel is at most once among queued tasks and services, a request exists for it, and while connected a queued request always has its task |
| ChannelMachine.BlockedWritersAreWoken | src/waitress/channel.py:90-120 | main result: a worker blocked and un-notified has the main thread's attention: the channel is writable, and the steps of a handle_write that gets the lock are all possible and end with the worker woken, or with the watermark still pending and no error |
| ChannelMachine.OnlyTheMainThreadMoves | src/waitress/channel.py:396-417 | while a worker waits un-notified, every possible step is one of the main thread, so that nobody disturbs that handle_write |
| ChannelMachine.UnlockedFlushMeetsNoTask | src/waitress/channel.py:95-101 | during the flush without the lock no request is queued and no service is active |
| ChannelMachine.WritersOutliveNoConnection | src/waitress/channel.py:396-417 | main result: a worker blocked inside write_soon un-notified has the channel connected, requests queued, and the total at the watermark or the channel about to close |
| ChannelMachine.WokenOnlyWhileConnected | src/waitress/channel.py:396-417 | while the main thread is idle, a blocked worker can be woken by some step if and only if the channel is connected; the one that cannot waits at the end of a service after a failed flush |
| ChannelScenarios.StuckWaitIsReachable | src/waitress/channel.py:471-482 | a concrete run in which a client leaves between the check and the lock at the end of a service, and the worker waits on a closed channel |
| ChannelMachine.StuckForever | src/waitress/channel.py:403-410 | without a connection, and with the main thread out of handle_write, no continuation of a run wakes a worker that waits |
| ChannelMachine.PendingOutputIsBounded | src/waitress/channel.py:347-417 | in every run, after a write at most the watermark and that write is pending |
| ChannelMachine.ClosingIsFinal | src/waitress/channel.py:465-469 | main result: once a worker has closed the channel, no later step of any run queues or serves a request |
| ChannelMachine.ResponsesInOrder | src/waitress/channel.py:419-511 | main result: services begin with the requests in the order received; output is sorted by request, each response in one piece, after at most one 100 Continue line of its own |
| ChannelMachine.WorkerStepKeepsInv | src/waitress/channel.py:347-417 | the steps of a worker inside its task keep the invariant |
| ChannelMachine.MainStepKeepsInv | src/waitress/channel.py:90-120 | the steps of handle_write that take the lock or test a flag keep the invariant, whatever workers do in between |
| ChannelMachine.TryFlushKeeps | src/waitress/channel.py:247-258 | the locked flush leaves nobody waiting without a reason |
| ChannelMachine.UnlockedKeepsInv | src/waitress/channel.py:260-307 | every operation of the flush without the lock keeps the invariant |
| ChannelMachine.TailKeepsInv | src/waitress/channel.py:173-189 | every operation of a late 100 Continue keeps the invariant |
| ChannelMachine.ParseKeepsInv | src/waitress/channel.py:210-243 | one turn of received keeps the invariant, whatever the parser finds |
| ChannelMachine.KeepKeepsInv | src/waitress/channel.py:497-511 | moving on to the next request, or to a late 100 Continue, keeps the invariant |
| ChannelMachine.CloseKeepsInv | src/waitress/channel.py:465-471 | emptying the queue to close keeps the invariant |
| ChannelProgress.IdleChannelDrains | src/waitress/channel.py:90-120 | main result: in every run without a race so far, from an idle main thread with no request queued, the steps of one handle_write with a willing socket are all possible and end with every accepted byte on the wire once and in order, nothing pending, and the channel closed exactly if it was told to close |
| ChannelProgress.FlushedChannelCloses | src/waitress/channel.py:115-120 | main result: in every run a channel that is to be closed once flushed, with nothing pending at the test, is disconnected by the next three steps of the main thread |
| ChannelProgress.FailedFlushCloses | src/waitress/channel.py:122-138 | in every run, after a flush of handle_write that failed the next three steps of the main thread disconnect the channel, unless a worker holds the outbuf lock |
| ChannelProgress.ClosingHasAReason | src/waitress/channel.py:90-138 | in every run a channel is marked for closing only by maintenance, by a flush that raised, or by the test that finds nothing pending on a channel to be closed once flushed; so a worker that closes it does not cut off pending output |
| ChannelProgress.ExpectingClientIsTold | src/waitress/channel.py:497-511 | main result: in every state of every run, a client that waits for a 100 Continue on a connected channel with nothing queued has a worker about to send it, unless a worker has closed the channel |
| ChannelProgress.LateLineGoesOut | src/waitress/channel.py:173-189 | main result: that worker's steps are all possible while the main thread is in no flush of its own, put the line behind everything accepted, and end, with a willing socket, with all of it on the wire once and in order |
| ChannelProgress.RequestGoesThrough | src/waitress/channel.py:191-245 | from a channel at rest a request is received, gets its task, is answered by one write and leaves the channel at rest, with that piece behind the earlier output |
| ChannelProgress.WritersGetThrough | src/waitress/channel.py:347-394 | with a willing socket a worker at the outbuf lock has its bytes accepted in one section, whatever is pending: above the watermark that goes out first, and what reaches send_bytes goes out too, in order |
| ChannelProgress.ClosingTaskCloses | src/waitress/channel.py:433-469 | a task that asks to close, or is interrupted because its client has gone, is followed by the section that closes the channel and empties the queue, without cutting off pending output |
| ChannelProgress.WokenWriterGoesOn | src/waitress/channel.py:403-417 | a woken writer has its bytes accepted when the output is below the watermark or it waited after a failed flush |
| ChannelProgress.NextRequestWaits | src/waitress/channel.py:471-482 | in every run a service goes on to another queued request only with at most the watermark pending, except after a wait for a failed flush |
| ChannelWire.WholeExactlyWithoutRace | src/waitress/channel.py:260-307 | main result: in every run, while the client is there, the bytes on the wire followed by the unread ones were the accepted ones at every moment so far, each once and in order, if and only if no step so far was a race; a race is a send from a chunk some of which the other thread has sent since it was taken, or a pop of an outbuf that is the last or still holds bytes |
| ChannelWire.WholeWithoutOverlap | src/waitress/channel.py:260-307 | main result: if the flush without the lock and that of a late 100 Continue are never under way at once, output is whole in every state of the run and the total is its unread length |
| ChannelWire.OverlapNeedsExpectation | src/waitress/channel.py:497-511 | the second flush begins only when a service ends with nothing more queued and a half-read request that expects a 100 Continue |
| ChannelWire.StepKeepsWire | src/waitress/channel.py:260-307 | every step that is no race keeps output whole, for all interleavings |
| ChannelWire.RaceBreaks | src/waitress/channel.py:260-307 | every race leaves it broken |
| ChannelScenarios.ByteIsSentTwice | src/waitress/channel.py:95-101 | a concrete run in which main thread and worker take the same byte and both send it |
| SharedOutbufs.TurnKeeps | src/waitress/channel.py:260-307 | one operation of one of two flushes keeps both sound unless it is a misstep |
| SharedOutbufs.MisstepBreaks | src/waitress/channel.py:260-307 | after a misstep a byte is on the wire twice, or lost, or there is no outbuf to append to |
| SharedOutbufs.AloneIsSafe | src/waitress/channel.py:260-307 | a flush that meets no other takes no misstep and fails on no buffer |
| SharedOutbufs.FlushKeeps | src/waitress/channel.py:260-307 | an undisturbed flush sends the first unread bytes and leaves the others, whatever outbufs it pops |
| SharedOutbufs.AcceptKeeps | src/waitress/channel.py:366-380 | what is accepted comes behind everything unread, in the last outbuf, a fresh one or a wrapped file |
| Responses.HeaderSection | src/waitress/task.py:194-283 | main result: a built header section is free of stray line ends; it declares the body length exactly when the task knew it and the status allows a body, announces chunks exactly for a 1.1 client otherwise, has neither for a status code that allows no body, keeps the connection open exactly when the client wants that and a length is declared, and tells the client whether it closes |
| Responses.PersistenceRules | src/waitress/task.py:236-258 | when the connection closes, when the body is chunked, and which headers say so |
| Responses.BodyByCode | src/waitress/task.py:174-180 | for every status that begins with three digits, the server takes it for bodiless exactly when the number is 1xx, 204 or 304 |
| Responses.ClosingIsTold | src/waitress/task.py:182-258 | the connection closes exactly when a client that reads the fields by section 9.3 of RFC 9112 takes it to close |
| Responses.HeadersAreKept | src/waitress/task.py:203-226 | every header of the application reaches the client with its value, its name in some letter case, but for the length of a body that is not sent |
| Responses.IdentityIsTold | src/waitress/task.py:262-271 | every response has a date, and a server with a name gives it in Server or Via |
| Responses.NameOrder | src/waitress/task.py:278 | names are compared byte by byte, a prefix first |
| Responses.LengthKnown | src/waitress/task.py:228-234 | a Content-Length is there exactly when the task knows the length of a body, and it agrees with it |
| Responses.NormalizeSound | src/waitress/task.py:203-226 | normalizing names keeps what the headers say and drops the length of a response without a body |
| Responses.SortIsStable | src/waitress/task.py:276-278 | headers come out ordered by name, and those of one name in the order given |
| ByteStrings.BlockEnd | src/waitress/task.py:279-281 | the rendered header section has its first blank line at its end, whatever follows |
| Responses.ReadsBack | src/waitress/task.py:194-283 | a response whose header declares its length is read back by section 6.3 of RFC 9112, with exactly what follows it left over |
| Responses.ChunkedReadsBack | src/waitress/task.py:320-323 | so is a chunked response |
| Responses.BodilessReadsBack | src/waitress/task.py:174-180 | a response whose status code allows no body is read back as its header section alone, by a reader with its own rule on the three digits |
| Responses.KeptOpenStreamReadsBack | src/waitress/task.py:301-346 | a client recovers the list of bodies from the concatenation of framed responses |
| TaskRuns.ConnectionReadsBack | src/waitress/task.py:164-492 | main result: from the concatenated output of any tasks that ended well, for applications of any behaviour with well-formed statuses and headers, a client recovers exactly the bodies that the applications gave, response by response, and none for a status code that allows none; the client has its own rules for status lines, codes, field names and codings |
| TaskRuns.ResponseDelivered | src/waitress/task.py:301-492 | main result: a task that ends normally with its client there has written one header section and the declared prefix of what the application gave (or all of it in chunks), and neither body nor length nor coding for a status code that allows none; the connection closes exactly when the client wants that, no length was declared, or too little was given, and the client has been told except in the last case |
| TaskRuns.ServiceDelivers | src/waitress/task.py:164-172 | the same claim for the specification of service |
| TaskRuns.EndedWellIsFramed | src/waitress/task.py:301-346 | such a response is delimited by its own header section, and its body is the application's output cut at the known length, or nothing for a status code that allows none |
| TaskRuns.KeptOpenEndedWell | src/waitress/task.py:164-172 | an exception that service swallows never leaves the connection open |
| TaskRuns.PerformKeeps | src/waitress/task.py:308-346 | through every order of start_response, write and iteration, with exceptions caught or not, what was written is the header section and the pieces so far, as framed |
| TaskRuns.StartKeeps | src/waitress/task.py:373-435 | start_response never changes a response whose header section is out, and before that leaves headers and noted length in agreement |
| TaskRuns.CheckedHeaders | src/waitress/task.py:407-430 | headers that pass the checks have no line ends and no hop-by-hop fields, and the length noted is the one they declare |
| TaskRuns.HopByHopIsRefused | src/waitress/task.py:28-39 | no hop-by-hop header of an application gets through start_response, in whatever letter case, whatever stands before or behind it |
| TaskRuns.WriteKeeps | src/waitress/task.py:308-346 | a write adds its piece to the body as the header section says: in a chunk, up to the declared length, or not at all |
| TaskRuns.PlainBody | src/waitress/task.py:324-333 | the body stays a prefix of what the application gave, and is all of it until the known length is reached |
| TaskRuns.PieceKeeps | src/waitress/task.py:459-478 | noting the length of a single piece never contradicts a header section already written |
| TaskRuns.OnePieceStaysOpen | src/waitress/task.py:459-478 | an application that gives one piece and no length gets a response that declares the length and reads back as that piece, on a connection that stays open where the client wants that |
| Tasks.WSGITask.BuildResponseHeader | src/waitress/task.py:194-283 | the loop and branches over the task's fields give the headers, the closing flag and the bytes of the specification |
| Tasks.WSGITask.NormalizeHeaders | src/waitress/task.py:203-226 | the loop normalizes names, drops a length that must not be sent, and remembers the last length, server and date |
| Tasks.WSGITask.DecidePersistence | src/waitress/task.py:236-258 | the branches on version and connection decide as the specification |
| Tasks.WSGITask.SetCloseOnFinish | src/waitress/task.py:182-192 | the task closes; before its header section is out it says so, unless a Connection header is there |
| Tasks.WSGITask.Write | src/waitress/task.py:308-346 | the first write sends the header section; each write sends what its framing allows, and fails when the client is gone |
| Tasks.WSGITask.WriteBody | src/waitress/task.py:318-346 | what one piece puts on the channel, and what is counted |
| Tasks.WSGITask.NoteHeaders | src/waitress/task.py:407-430 | the loop stops at the first bad header and has then noted the lengths before it |
| Tasks.WSGITask.StartResponse | src/waitress/task.py:373-435 | the whole new state and the exception, for every combination of earlier calls, exc_info and headers |
| Tasks.WSGITask.Execute | src/waitress/task.py:437-492 | the loop over the application's actions, and the length check at its end |
| Tasks.WSGITask.Finish | src/waitress/task.py:301-306 | an empty response still gets its header section, a chunked one its last chunk |
| Tasks.WSGITask.Service | src/waitress/task.py:164-172 | main result: an OSError makes the connection close and is swallowed unless socket errors are logged; and for a fresh task, when nothing is raised and the client is there, a connection that stays open has got one header section that declares a length and that much of what the application gave |
| Tasks.ServeAndRead | src/waitress/channel.py:423-433 | a fresh task served to a normal end without closing has put a framed response on the channel, with the application's output as its body |

## Left out

- ChannelProgress.IdleChannelDrains: what leads on is a list of steps that are possible, with a socket that takes what it is offered; that threads are scheduled fairly is not part of the model.
- Requests.StreamCutIndependence: follows the stream up to the first request that asks for a 100 Continue, because `send_continue` resets `completed` and the request may then be parsed on; the class methods and `ChannelMachine` do cover the sending of the line.
- RequestParsers.HTTPRequestParser.Received: a request already completed, or one marked incomplete again by `send_continue`, is only known to consume no more than it is given; `connection_close` is left out, because neither channel nor task reads it.
- Channels.HTTPChannel.Received: says when a 100 Continue is sent, not that it is the only one of the call: a request that expects it and has no body is marked incomplete by `send_continue`, and what is parsed in its place can be sent another.
- Receivers.ChunkedReceiver.Received: a call after an error has been recorded, which the parser never makes, is only bounded; the field `trailer` of a completed message is not part of the claim, because a bare CR LF leaves it as it was.
- Output.ChannelOutput.HandleWrite: the contract is that of a call that no other thread disturbs; what happens to it among other threads is the subject of `ChannelMachine` and `ChannelWire`.
- Output.ChannelOutput.WriteSoon: ends where the writer would wait and goes on in `ResumeWrite`; what other threads do in between is the subject of `ChannelMachine`.
- Dispatcher.ThreadedTaskDispatcher.CancelPendingTasks: the timed wait for the threads before it is left out, and `cancel()` of a task is only its place in the list of fates.
- TaskRuns.ResponseDelivered: for statuses that begin with three digits, as WSGI asks for; not for HEAD requests and not for wrapped files, whose bodies are not counted by `write`; `app_iter.close()` does not fail; header names are compared in ASCII.
- Headers.ParseBlock: splitting the URI is one abstract predicate (`uriRefused`); `int()` on a Content-Length has no limit on the number of digits. The block parsed in place of a header that is too large is not parsed again in `ReceiveHeader`, because `SubstituteBlockIsEmpty` shows that it changes nothing.
- ChannelWire.WholeExactlyWithoutRace: one operation on a buffer, on the list of outbufs or on the total is one step, though the interpreter can switch threads inside it; nothing is claimed about output once the client has gone.
- Output.ChannelOutput.HandleClose: that a waiter is notified is stated in `HandleWrite` and in `ChannelMachine`, where there are waiters.
- The two halves of `HTTPChannel` are two classes, `ChannelOutput` and `HTTPChannel`; `body_rcv` is two fields, one for each kind of receiver.
- `HTTPChannel.service` as a method: its lock sections are steps of `ChannelMachine`, and the task inside it is `WSGITask.Service`.
- `ErrorTask` and the substitute 500 response: they close the connection and would only add an easier case of the same framing.
- `FileBasedBuffer.prune` and `OverflowableBuffer.prune`: nothing in the server calls them.
- `cancel`, `close_all` and the race of shutdown with a running task; time, timeouts and `last_activity`. The closing of idle channels by the server is one step of `ChannelMachine`.
- Sockets, select, poll and errno: a send takes any part of what it is offered, finds the client gone, or raises; `pull_trigger` does nothing. Python's `Condition` has no spurious wakeups.
- `readable` and the limits on lookahead: the main thread may read at any time at which `received` would not ignore the data, which includes every time at which `readable` lets it.
- An exception from a failing `send_continue` inside `received` leads to `handle_close` in the main loop; in `ChannelMachine` that is part of the same step.
- The WSGI environ, percent-decoding, HTTP dates, proxy headers, configuration, logging: library calls or string plumbing.
