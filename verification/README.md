# One connection of a muduo-style server, verified

A Dafny model of one server connection of the oop_muduo network library, from the bytes in
its buffers to the HTTP responses a client gets back, with the poller registration under it
and the threads that start its event loop. The classes have the fields and methods of the
C++ classes; each method is proved against a pure specification function or against the
abstract value of its object, and the promises of the library are lemmas about those.

| file | models |
|---|---|
| `bytes.dfy`, `big_endian.dfy`, `decimal.dfy` | octets, searches, network byte order, decimal numbers |
| `buffer.dfy` | `muduo::Buffer` over an array: compaction in place, growth, prepend area, scatter read |
| `http_request.dfy`, `http_context.dfy` | the request object, the request line, the resumable parser |
| `http_stream.dfy` | whole-stream readings, independence from fragmentation, the line-and-message reference |
| `http_printing.dfy`, `http_response.dfy`, `http_framing.dfy` | printed requests and responses, and how a receiver finds the bodies again |
| `poller.dfy` | `FdHandler`, `Epoll` and the kernel's interest set (ghost) |
| `link_protocol.dfy`, `link_order.dfy` | output and closing of a connection as a step machine, and exactly when its callbacks keep order and drain |
| `link_runs.dfy`, `link_closing.dfy` | all runs of it, from one thread or several: safety, order, drain, silence, and how often it half-closes |
| `linked_socket.dfy`, `link_loop.dfy` | the class that refines the machine, and a loop that carries out runs on its objects |
| `http_session.dfy`, `http_exchange.dfy`, `http_server.dfy` | the connection end to end, and the server class that refines it |
| `thread_pool.dfy`, `start_handshake.dfy` | round-robin dispatch, and the start of an event-loop thread |

System calls are parameters: what `write` takes, what `readv` brings, what `epoll_wait`
reports. Ghost fields record what the kernel accepted and was given, the calls of
`shutdownWrite`, and the kernel's interest set. `Buffer.Valid` carries the storage bound: the
array is never longer than max(8 + initial size, 2 * peak + 7), where `peak` is the largest
readable length reached; a bare `ensureWritableBytes` counts the length it asks room for.

## What the code does not do

Seven natural claims about the code are false; for each the exact condition is proved, and an
input is given.

- Keep-alive framing holds for bodies below 2^31 bytes only. `StringPiece` keeps the length of
  the body in an `int`, so longer bodies lose a multiple of 2^32 bytes while the length line
  announces all of them; above 10^13 the 32-byte format buffer cuts the length line as well
  (`HttpFraming.FramingIsRightIffSmall`, with the input in `HttpFraming.FramingBreaks`).
- A connection can call `write` again after its half-close: once it is no longer up, it is silent
  in all runs exactly when it is disconnected, or has no backlog and no non-empty send from
  another thread is queued (`LinkRuns.SilentIff`). What a kernel takes of such a send is written
  after the half-close, and the rest is a backlog that goes on being written with nothing queued
  (`LinkRuns.SendAfterHalfClose`); a kernel that follows POSIX answers EPIPE, and the message is
  lost (`LinkRuns.LostAfterHalfClose`).
- A connection can half-close more than once. In all runs it does so once for the shutdown that
  takes effect with nothing queued, and once for every backlog that is emptied with the connection
  no longer up (`LinkClosing.HalfCloseCount`). With all calls on the loop thread it half-closes
  twice exactly when the write-complete callback made by `handleWrite` shuts it down, or a
  high-water callback does and the message it cut off is written later
  (`LinkClosing.LoopOnlyHalfClose`). The runs are in `LinkClosing.TwoHalfCloses`,
  `LinkClosing.HighWaterTwoHalfCloses` and `LinkClosing.OffLoopTwoHalfCloses`.
- The order of the bytes and the drain before the half-close do not survive every high-water
  callback, which is made between the direct write and the queueing of the rest. A run keeps the
  order exactly if what each such callback hands over commutes with the rest it comes before, and
  half-closes only with everything accepted exactly if none of them shuts the connection down with
  nothing queued (`LinkRuns.PromisesIff`; for one send `LinkOrder.HighWaterCallback`). Callbacks
  that neither send nor shut down break nothing (`LinkRuns.ConsiderateRun`). The inputs are in
  `LinkOrder.HighWaterShutdown`, `LinkOrder.HighWaterSendAndShutdown`,
  `LinkOrder.HighWaterOvertakes` and `LinkOrder.CommuteTogether`. No byte is lost or written
  twice in any case (`LinkRuns.ConnectionSafety`).
- `handleClose` can meet its own assertion: exactly when HUP comes with PRI but without IN and
  the read then finds the end of the stream (`LinkProtocol.DispatchAssertion`, with the
  dispatch in `LinkProtocol.CloseAssertionBreaks`).
- A call of `parseRequest` after a rejected line can meet the assertion in `setMethod`: exactly
  when the line starts with a known method and a space (`HttpStreams.AfterRejection`, with the
  line in `HttpStreams.RejectionSpoilsContext`).
- `startLoop` can wait for good: exactly when the new thread leaves its loop before the loop was
  read (`StartHandshake.ReturnsIffNotEarly`, with the run in `StartHandshake.EarlyExit`).

Where comments and code disagree the code is followed: the comment on `readInt64` asks for 4
readable bytes, the code for 8; a header line without a colon ends the headers even when it is
not empty; `forceClose` never closes, since its second half tests for a state its first half
has left. One `rcvMessage` delivers at most one request, so pipelined requests wait in the
buffer for the next read (`HttpStreams.OneMessagePerCall`).

## Model

| member | source | states |
|---|---|---|
| Bytes.Find | net/simple_http/HttpContext.cpp:11 | the result is the first position of the octet, or the end of the range when it does not occur |
| Bytes.FindCRLF | base/Buffer.h:68-73 | the result is the first CRLF and none comes before it; None means there is none at all |
| Bytes.FindCRLFStable | base/Buffer.h:68-73 | a CRLF found in the buffer is found at the same place after any further input, which is what makes parsing resumable |
| Bytes.FindCRLFAfterLine | base/Buffer.h:68-73 | a CRLF-free line is found to end at the CRLF written after it, also when the line ends in CR |
| Bytes.Piece | base/StringPiece.h:83-84 | where the `int` length is not negative, a text survives it exactly if it is below 2^31 bytes |
| BigEndian.MostSignificantFirst | base/Buffer.h:278-304 | the octets are in network order: decoding a concatenation gives the first part the higher weight |
| BigEndian.OctetOnWire | base/Buffer.h:212-236 | octet i of an integer is the i-th digit to the base 256, from the most significant, of its value modulo 256^width, for both signs |
| BigEndian.OneOctet | base/Buffer.h:306-311 | a single octet counts as its value |
| BigEndian.WidthsInBits | base/Buffer.h:212-236 | the four widths are 8, 16, 32 and 64 bits |
| BigEndian.SignBit | base/Buffer.h:278-311 | what is read is the unsigned value, less 256^width if the first octet has its top bit set |
| BigEndian.Examples | base/Buffer.h:212-284 | 1 goes out on four octets as 00 00 00 01 and -2 on two as FF FE; 00 00 00 05 is read as 5 |
| BigEndian.RoundTrip | base/Buffer.h:212-284 | every signed integer in the range of its width is decoded to itself after two's complement and network order |
| BigEndian.RoundTripBytes | base/Buffer.h:278-311 | every byte string is the encoding of the integer decoded from it, so decoding loses nothing |
| BigEndian.MixedRoundTrip | base/Buffer.h:212-311 | any sequence of integers of mixed widths reads back in order, and the bytes after it are untouched |
| Buffers.Buffer.constructor | base/Buffer.h:36-44 | a new buffer is empty, offers exactly the initial size, and has 8 prependable bytes |
| Buffers.Buffer.FindCRLF | base/Buffer.h:68-73 | the loop finds what the specification search finds in the readable bytes |
| Buffers.Buffer.FindCRLFFrom | base/Buffer.h:75-82 | the same from any start position inside the readable bytes |
| Buffers.Buffer.FindEOL | base/Buffer.h:84-96 | the first newline at or after the start, or none |
| Buffers.Buffer.Retrieve | base/Buffer.h:101-112 | exactly the first `len` readable bytes are gone; emptying the buffer restores the prepend mark |
| Buffers.Buffer.RetrieveAll | base/Buffer.h:141-145 | nothing is readable and the prepend mark is restored |
| Buffers.Buffer.RetrieveUntil | base/Buffer.h:114-119 | exactly the bytes before the end position are gone |
| Buffers.Buffer.RetrieveAsString | base/Buffer.h:152-158 | result and remaining contents together are the old contents |
| Buffers.Buffer.RetrieveAllAsString | base/Buffer.h:147-150 | the result is all that was readable and the buffer is empty |
| Buffers.Buffer.SlideDown | base/Buffer.h:390-392 | the forward copy over overlapping ranges leaves the old readable bytes at the prepend mark |
| Buffers.Buffer.Grow | base/Buffer.h:383 | resizing keeps the readable bytes |
| Buffers.Buffer.MakeSpace | base/Buffer.h:378-397 | contents unchanged and room made, by growth exactly when sliding would not do; the assertion before the slide holds, and the storage bound is kept |
| Buffers.Buffer.EnsureWritableBytes | base/Buffer.h:182-189 | room for `len` bytes, contents unchanged, storage bound kept, prepend area intact or restored |
| Buffers.Buffer.HasWritten | base/Buffer.h:197-201 | the bytes placed after the readable ones become readable, in place |
| Buffers.Buffer.Unwrite | base/Buffer.h:203-207 | exactly the last `len` readable bytes are gone |
| Buffers.Buffer.CopyToEnd | base/Buffer.h:173 | the copy changes nothing readable |
| Buffers.Buffer.Append | base/Buffer.h:170-175 | new contents are the old contents followed by the data, through growth and compaction, within the storage bound |
| Buffers.Buffer.AppendPiece | base/Buffer.h:165-168 | what is appended is the text cut to its length modulo 2^32, within the storage bound |
| Buffers.Buffer.Prepend | base/Buffer.h:342-348 | new contents are the data followed by the old contents, taken from the prepend area |
| Buffers.Buffer.CopyToFront | base/Buffer.h:347 | the data stand at the front and the bytes behind them are as before |
| Buffers.Buffer.AppendInt | base/Buffer.h:212-236 | appends the network-order encoding, for each of the four widths |
| Buffers.Buffer.PeekInt | base/Buffer.h:278-311 | the result is the integer whose encoding stands at the front |
| Buffers.Buffer.ReadInt | base/Buffer.h:242-272 | the old contents are the encoding of the result followed by the new contents |
| Buffers.Buffer.PrependInt | base/Buffer.h:316-340 | prepends the encoding, so that `ReadInt` gives back value and contents |
| Buffers.Buffer.AppendInts | base/Buffer.h:212-236 | a list of integers of mixed widths is appended in network order, one after the other |
| Buffers.Buffer.ReadInts | base/Buffer.h:242-272 | integers are read from the front as the specification reads them from the byte string, and the rest is left |
| Buffers.Buffer.CarryInts | base/Buffer.h:212-272 | integers of mixed widths appended behind any contents come back in order, through growth and compaction, and the buffer is empty |
| Buffers.Buffer.Spill | base/Buffer.cpp:44-47 | a read that overflows the free tail into the side array is still one append, in order |
| Buffers.Buffer.ReadFd | base/Buffer.cpp:20-48 | every successful scatter read is an append of the bytes received, at most max(writable, 131071) of them; a failed one changes nothing and saves the error |
| HttpRequests.MethodOf | net/simple_http/HttpRequest.h:35-64 | a method is recognised exactly when the text is "GET", "POST", "HEAD", "PUT" or "DELETE" |
| HttpRequests.TextsOnWire | net/simple_http/HttpRequest.h:68-92 | the texts of the five methods and of the two versions, letter by letter |
| HttpRequests.VersionOf | net/simple_http/HttpContext.cpp:29-44 | a version is recognised exactly when the text is HTTP/1.0 or HTTP/1.1 |
| HttpRequests.WhiteSpace | net/simple_http/HttpRequest.h:117-122 | white space is the six octets 9 to 13 and 32 |
| HttpRequests.TrimAround | net/simple_http/HttpRequest.h:116-125 | trimming takes exactly the white space written before and after a trimmed value |
| HttpRequests.HeaderStored | net/simple_http/HttpRequest.h:113-127 | whatever white space surrounds the value in the line, the bare value is stored under the text before the colon |
| HttpRequests.TrailingBlankDropped | net/simple_http/HttpRequest.h:121-125 | "A: x " stores "x" under "A" |
| HttpRequests.TrimCuts | net/simple_http/HttpRequest.h:116-125 | trimming removes white space only, and all of it at both ends |
| HttpRequests.TrimRestores | net/simple_http/HttpRequest.h:116-125 | a trimmed value written after blanks is read back |
| HttpRequests.SpellingRead | net/simple_http/HttpContext.cpp:7-48 | each of the ten combinations of a method and a version, spelled out, is accepted with that method and that version |
| HttpRequests.AcceptedSpellings | net/simple_http/HttpContext.cpp:7-48 | a line is accepted if and only if it is one of the five names, a space, a target without one, a space, and "HTTP/1.0" or "HTTP/1.1" |
| HttpRequests.RejectedLineLeaves | net/simple_http/HttpContext.cpp:7-48 | a rejected line leaves the method before its first space, and the target if a known method and a second space came before it ended; never a version or a field |
| HttpRequests.RequestLineRead | net/simple_http/HttpContext.cpp:7-48 | every line of the grammar (section 3.1.1 of RFC 7230, five methods, target possibly empty) is accepted and its parts end up in the request |
| HttpRequests.AcceptedLineSplits | net/simple_http/HttpContext.cpp:7-48 | an accepted line is the method, target and version then held, joined by single spaces |
| HttpRequests.AcceptanceIsExact | net/simple_http/HttpContext.cpp:7-48 | a line is accepted if and only if it has a reading in the grammar |
| HttpRequests.RequestLineUnique | net/simple_http/HttpContext.cpp:7-48 | a line has at most one reading |
| HttpRequests.TargetSplits | net/simple_http/HttpContext.cpp:18-27 | path followed by query is the target; the path has no '?', the query is empty or starts with it |
| HttpRequests.HttpRequest.constructor | net/simple_http/HttpRequest.h:26-29 | a new request is the fresh one |
| HttpRequests.HttpRequest.SetMethod | net/simple_http/HttpRequest.h:35-92 | succeeds exactly on "GET", "POST", "HEAD", "PUT" and "DELETE", and `methodString` then gives the text back |
| HttpRequests.HttpRequest.SetTarget | net/simple_http/HttpRequest.h:95-105 | path and query become the target cut at its first '?' |
| HttpRequests.HttpRequest.AddHeader | net/simple_http/HttpRequest.h:113-127 | the two loops store the trimmed value under the text before the colon, replacing an earlier one |
| HttpRequests.HttpRequest.Swap | net/simple_http/HttpRequest.h:142-150 | both requests hold what the other held, receive times included |
| HttpContexts.TakeLine | net/simple_http/HttpContext.cpp:57-102 | a line is rejected only in the request-line state, and ends a message only in the header state, with the request unchanged |
| HttpContexts.Parse | net/simple_http/HttpContext.cpp:51-109 | a call that neither fails nor completes has used up every whole line and can be resumed; completion consumes something; `kExpectBody` is never entered |
| HttpContexts.HttpContext.constructor | net/simple_http/HttpContext.h:24-27 | a new context expects a request line |
| HttpContexts.HttpContext.Reset | net/simple_http/HttpContext.h:33-38 | whatever the state, the context is as new |
| HttpContexts.HttpContext.ProcessRequestLine | net/simple_http/HttpContext.cpp:7-48 | result and request are those of the specification reading, also on rejected lines that leave parts behind |
| HttpContexts.HttpContext.ProcessVersion | net/simple_http/HttpContext.cpp:29-44 | the version is set exactly if the text is one of the two known ones, and nothing else changes |
| HttpContexts.HttpContext.ParseLine | net/simple_http/HttpContext.cpp:57-102 | one turn of the loop on a complete line consumes it unless it is rejected |
| HttpContexts.HttpContext.ParseRequest | net/simple_http/HttpContext.cpp:51-109 | the loop ends on every buffer, in the outcome of the specification parse; the receive time is that of the call that accepted the request line |
| HttpStreams.Read | net/simple_http/HttpContext.cpp:51-109 | read to the end, a stream is used up to its last whole line unless a line is rejected |
| HttpStreams.ParseAppend | net/simple_http/HttpContext.cpp:51-109 | parsing more input is resuming the parse of less: a finished outcome is not disturbed by later bytes |
| HttpStreams.ReadAppend | net/simple_http/HttpContext.cpp:51-109 | reading a concatenation is reading the first part and going on with what it left |
| HttpStreams.Receive | net/simple_http/HttpServer.cpp:53-73 | until a rejection the context is left in one of the two resumable states, and the assertion of `setMethod` holds at the next call |
| HttpStreams.ReceiveKeepsWhole | net/simple_http/HttpServer.cpp:62-72 | one `rcvMessage` changes nothing about what the rest of the stream will yield in all |
| HttpStreams.FragmentationIrrelevant | net/simple_http/HttpServer.cpp:53-73 | for every split into calls, delivered requests plus the reading of what is buffered and to come equal the reading of the unsplit stream |
| HttpStreams.ParseConsumes | net/simple_http/HttpContext.cpp:51-109 | the consumed bytes alone lead to the same parser with nothing left |
| HttpStreams.RunAccounts | net/simple_http/HttpServer.cpp:53-73 | over every run, consumed plus buffered bytes are the input, and delivered requests with the partial one are exactly the reading of the consumed bytes |
| HttpStreams.ParseHeaders | net/simple_http/HttpContext.cpp:79-102 | reading header lines one at a time equals taking the block of lines before the first without a colon |
| HttpStreams.ReadIsReadMessages | net/simple_http/HttpContext.cpp:51-109 | the incremental parser refines the reference that first cuts all lines and then groups them into messages: same requests, same rejection, same partial request, same rest |
| HttpStreams.DeliveredIsPrefix | net/simple_http/HttpServer.cpp:53-73 | after any run the delivered requests are a prefix of the reference messages of the input, and all of them on rejection or when no whole line is buffered |
| HttpStreams.OneMessagePerCall | net/simple_http/HttpServer.cpp:68-72 | a call that finds a complete message at the front delivers that one and no other |
| HttpStreams.AfterRejection | net/simple_http/HttpRequest.h:37 | a rejected line stays buffered; the next call passes the assertion exactly when the line has no known method before a space |
| HttpStreams.RejectionSpoilsContext | net/simple_http/HttpContext.cpp:29-47 | "GET /" is such a line: rejected, still buffered, and the context not ready |
| HttpPrinting.FieldsRoundTrip | net/simple_http/HttpContext.cpp:79-97 | a field section is read back, whatever white space surrounds the values, with the last field of a name winning, and what follows the empty line stays in the buffer |
| HttpPrinting.PrintedIsWritten | net/simple_http/HttpResponse.cpp:25-32 | the printer's form is one of these, with one blank before the value |
| HttpPrinting.RequestRoundTrip | net/simple_http/HttpContext.cpp:7-109 | parsing the written form of any plain request, with any white space around its field values, yields that request and leaves exactly the bytes that follow |
| HttpResponses.Format | net/simple_http/HttpResponse.cpp:8-10 | texts of up to 31 characters pass the 32-byte buffer unchanged |
| HttpResponses.AppendToBuffer | net/simple_http/HttpResponse.cpp:6-36 | the loop appends the printed response behind the old contents, for every order of the header entries |
| HttpResponses.AppendHead | net/simple_http/HttpResponse.cpp:8-23 | appends status line and generated fields behind the old contents |
| HttpResponses.AppendOwnFields | net/simple_http/HttpResponse.cpp:14-23 | appends the close field, or the length line and the keep-alive field |
| HttpResponses.AppendHeaders | net/simple_http/HttpResponse.cpp:25-32 | the loop appends one field line for each entry, in the order of iteration |
| HttpResponses.AppendHeader | net/simple_http/HttpResponse.cpp:28-31 | appends one field line |
| Decimals.ParseOfPrinted | net/simple_http/HttpResponse.cpp:20 | a printed decimal number is read back |
| Decimals.ThirteenDigits | net/simple_http/HttpResponse.cpp:8 | thirteen digits are enough exactly below 10^13 |
| HttpFraming.LengthLineSize | net/simple_http/HttpResponse.cpp:20 | the length line fits the 32-byte buffer exactly for lengths below 10^13 |
| HttpFraming.StatusLineReadsBack | net/simple_http/HttpResponse.cpp:8-12 | split at its first two spaces, the status line gives HTTP/1.1, the code and the message |
| HttpFraming.StatusOnWire | net/simple_http/HttpResponse.h:14-21 | the beginnings of the five status lines, letter by letter |
| HttpFraming.OwnFieldsOnWire | net/simple_http/HttpResponse.cpp:14-23 | the generated fields, letter by letter, with the length in decimal |
| HttpFraming.DefaultAnswer | net/simple_http/HttpServer.cpp:11-16 | the answer of the default callback, letter by letter, whatever was preset |
| HttpFraming.UnchangedAnswer | net/simple_http/HttpResponse.h:23-27 | the answer of a callback that changes nothing, letter by letter |
| HttpFraming.PrintedAfterStatusLine | net/simple_http/HttpResponse.cpp:8-35 | the first CRLF of a printed response ends the status line, and fields, empty line and body follow |
| HttpFraming.PrinterMeetsParser | net/simple_http/HttpResponse.cpp:14-35 | fed to the parser's header state, a printed response gives the generated fields overridden by its own and leaves exactly the body |
| HttpFraming.ClosingIsAnnounced | net/simple_http/HttpResponse.cpp:14-23 | a receiver reads "close" from the field "Connection" exactly when the server closes after the response, and "Keep-Alive" exactly when it does not |
| HttpFraming.DecodePrinted | net/simple_http/HttpResponse.cpp:18-35 | below 10^13, a receiver that goes by Content-Length (section 3.3.3 of RFC 7230) takes the announced number of bytes from those after the fields |
| HttpFraming.DecodesOwnBody | net/simple_http/HttpResponse.cpp:18-35 | with a body below 2^31 bytes the receiver finds the body and leaves what follows |
| HttpFraming.SelfDelimiting | net/simple_http/HttpResponse.cpp:6-36 | any concatenation of keep-alive responses decodes to their bodies, in order, with nothing left over |
| HttpFraming.CutLengthLine | net/simple_http/HttpResponse.cpp:20 | from 10^13 on the printed length line has lost its line feed |
| HttpFraming.HugeBodyNotDecoded | net/simple_http/HttpResponse.cpp:20-22 | then the next field runs into the length line and no receiver can decode the response |
| HttpFraming.FramingIsRightIffSmall | base/StringPiece.h:83-84 | a framable response decodes to its own body if and only if the body is below 2^31 bytes |
| HttpFraming.FramingBreaks | base/StringPiece.h:83-84 | a body of 2^32 bytes is an input for which nothing of the body is sent and decoding fails |
| Pollers.RegistrationCoherent | net/Epoll.cpp:64-125 | in every reachable state of a handler the three views agree and the kernel watches for the handler's mask, and the next ADD, MOD or DEL issued is one the kernel accepts |
| Pollers.FdHandler.constructor | net/FdHandler.h:25-31 | a new handler has no interest and is not registered |
| Pollers.FdHandler.EnableWriting | net/FdHandler.cpp:60-63 | adds the write bit only |
| Pollers.FdHandler.EnableReading | net/FdHandler.cpp:65-68 | adds the read bits only |
| Pollers.FdHandler.DisableWriting | net/FdHandler.cpp:69-72 | removes the write bit only |
| Pollers.FdHandler.DisableReading | net/FdHandler.cpp:74-77 | removes the read bits only |
| Pollers.FdHandler.DisableAll | net/FdHandler.cpp:78-81 | no interest is left |
| Pollers.FdHandler.UpdateInPoll | net/FdHandler.cpp:110-131 | with its assertion met, the registration takes the specified step and every other live handler's registration is untouched |
| Pollers.FdHandler.Destroy | net/FdHandler.cpp:83-87 | a registered handler leaves map and kernel set, whatever its interest was, and no other registration changes |
| Pollers.Epoll.constructor | net/Epoll.cpp:16-20 | no descriptor is registered |
| Pollers.Epoll.Update | net/Epoll.cpp:112-125 | called only with operations the kernel accepts; changes the entry of this descriptor only |
| Pollers.Epoll.AddHandler | net/Epoll.cpp:82-93 | a handler unknown to the kernel is entered in map and kernel set |
| Pollers.Epoll.UpdateHandler | net/Epoll.cpp:79-110 | all assertions hold, coherence of all live handlers is kept, and the step is the specified one: ADD, MOD or, without interest, DEL |
| Pollers.Epoll.RemoveHandler | net/Epoll.cpp:64-77 | all assertions hold and the descriptor is in neither table afterwards |
| LinkProtocol.Taken | net/LinkedSocket.cpp:91 | the kernel takes a prefix, never more than it is offered |
| LinkProtocol.WritingIsBacklog | net/LinkedSocket.cpp:123-127 | before disconnection write interest is on exactly when there is a backlog, and never after it, also in the middle of a call |
| LinkProtocol.GivenBytes | net/LinkedSocket.cpp:89-111 | the direct write hands over its part of the message, and the part and the rest are the message |
| LinkProtocol.GivenWhole | net/LinkedSocket.cpp:91-98 | a message the direct write takes whole leaves no backlog, and bytes are conserved when the callback is made |
| LinkProtocol.EnqueueSound | net/LinkedSocket.cpp:122-127 | the rest goes behind everything handed over before, and write interest follows |
| LinkProtocol.QueuedKeeps | net/LinkedSocket.cpp:114-128 | whatever the owner does in the high-water callback, no byte is lost or made up, and registration, write interest and state stay coupled |
| LinkProtocol.SendInLoopKeeps | net/LinkedSocket.cpp:77-129 | so it is for every result of the direct write and whatever the owner does in either callback |
| LinkProtocol.DoActsKeeps | net/LinkedSocket.cpp:34-157 | any sends, shutdowns and forced closes from callbacks, nested callbacks included, lose and make up no byte, keep the coupling and only move forward |
| LinkProtocol.AfterDrainKeeps | net/LinkedSocket.cpp:201-209 | whatever the callback does before the test for a shutdown keeps that |
| LinkProtocol.ShutdownKeeps | net/LinkedSocket.cpp:131-148 | shutting down moves no byte and queues nothing |
| LinkProtocol.HandleWriteKeeps | net/LinkedSocket.cpp:190-221 | any partial write, and any callback once the backlog is empty, keeps bytes, coupling and write interest |
| LinkProtocol.HandleCloseKeeps | net/LinkedSocket.cpp:223-235 | closing deregisters, and changes no byte, no queued functor and no log |
| LinkProtocol.NothingAfterClose | net/LinkedSocket.cpp:190-221 | after a close, a pending POLLOUT, a send and a shutdown leave the connection exactly as it is |
| LinkProtocol.HandleEventKeeps | net/FdHandler.cpp:18-58 | every dispatch, with any calls of the owner inside the read and all callbacks, keeps bytes and coupling and moves the state forward only |
| LinkProtocol.DispatchAssertion | net/LinkedSocket.cpp:226 | with bits as epoll reports them, the close assertion breaks if and only if HUP and PRI come without IN and the read finds the end |
| LinkProtocol.CloseAssertionBreaks | net/LinkedSocket.cpp:226 | a new connection with HUP, PRI and the end of the stream is such a dispatch |
| LinkProtocol.ReportedBits | net/FdHandler.cpp:14-16 | input is watched until the connection is closed, writability exactly while there is a backlog |
| LinkProtocol.HangUpCloses | net/FdHandler.cpp:47-50 | HUP without IN ends disconnected, and does nothing besides closing |
| LinkProtocol.ReadableReads | net/FdHandler.cpp:51-57 | any of IN, PRI and RDHUP reads once, also with ERR, and IN also with HUP: data make the owner's calls, the end of the stream ends disconnected, an error changes nothing; OUT then writes |
| LinkProtocol.OnlyWrites | net/FdHandler.cpp:47-57 | without any of these bits nothing is read or closed: OUT writes, and ERR changes nothing |
| LinkProtocol.PeerClosed | net/FdHandler.cpp:47-53 | IN with HUP and the end of the stream, as reported when the peer closes after the half-close, ends disconnected |
| LinkProtocol.WriteCompleteCallback | net/LinkedSocket.cpp:88-98 | a send makes the write-complete callback exactly if nothing was queued and the kernel takes the whole message, be it empty |
| LinkProtocol.DrainCallback | net/LinkedSocket.cpp:193-205 | `handleWrite` makes it exactly if it empties the backlog |
| LinkProtocol.HighWaterIsCrossing | net/LinkedSocket.cpp:116-121 | the high-water callback is made exactly if the send takes the backlog from below the mark to it or above it, with the resulting backlog as its argument |
| LinkProtocol.SendTakes | net/LinkedSocket.cpp:88-111 | a send writes at once exactly if nothing was queued, and then counts what the kernel takes |
| LinkProtocol.WriteTakes | net/LinkedSocket.cpp:190-221 | `handleWrite` counts what the kernel takes, and a failed write changes nothing |
| LinkProtocol.ActsRefused | net/LinkedSocket.cpp:34-157 | once the connection is not up, no call of the owner on the loop thread changes anything |
| LinkOrder.QueuedOrder | net/LinkedSocket.cpp:114-128 | a send keeps the order of the bytes if and only if what its high-water callback hands over commutes with the rest |
| LinkOrder.ActsOrder | net/LinkedSocket.cpp:34-157 | calls of the owner, to any depth of callbacks, hand over what they submit in the order of the sends if and only if every high-water callback on the way commutes with the rest it precedes |
| LinkOrder.InOrderAfter | net/LinkedSocket.cpp:77-129 | order lost is never regained by later calls, and order kept is kept exactly by calls that keep it |
| LinkOrder.ActsHalfClose | net/LinkedSocket.cpp:131-148 | the owner's calls half-close once at most, exactly if they shut down with nothing queued; something submitted is still missing then exactly if they do so from a high-water callback |
| LinkOrder.ActsKeepInv | net/LinkedSocket.cpp:34-157 | the owner's calls keep order and drain if and only if every high-water callback commutes and none shuts down with nothing queued |
| LinkOrder.HighWaterCallback | net/LinkedSocket.cpp:114-128 | at one send, with any calls and nested callbacks: order and drain are kept if and only if nothing shuts down with nothing queued and what is handed over commutes with the rest |
| LinkOrder.SentCommutes | net/LinkedSocket.cpp:114-128 | if the nested callbacks are orderly themselves, the condition is that the messages sent commute with the rest |
| LinkOrder.ConsiderateKeeps | net/LinkedSocket.cpp:117-122 | high-water callbacks that neither send nor shut down, at any depth, break nothing |
| LinkOrder.HighWaterShutdown | net/LinkedSocket.cpp:117-122 | a shutdown there half-closes before the message it was made for |
| LinkOrder.HighWaterSendAndShutdown | net/LinkedSocket.cpp:94-122 | so does the write-complete callback of a send made there, although the send alone would commute |
| LinkOrder.HighWaterOvertakes | net/LinkedSocket.cpp:117-122 | a send there is handed over before the message it was called for |
| LinkOrder.CommuteTogether | net/LinkedSocket.cpp:117-122 | two sends there that each break the order alone keep it together |
| LinkRuns.Step | net/LinkedSocket.cpp:34-166 | every step of calls on and off the loop thread, queued functors and dispatches, with all callbacks, keeps bytes and coupling and only moves forward |
| LinkRuns.ForceCloseNeverCloses | net/LinkedSocket.cpp:150-166 | in every reachable state the queued half of `forceClose` leaves the connection as it is |
| LinkRuns.ForceCloseStaysOpen | net/LinkedSocket.cpp:150-166 | `forceClose`, from whichever thread, leaves the connection no longer up, but neither closed nor half-closed, once its queued half has run |
| LinkRuns.RunKeeps | net/LinkedSocket.cpp:34-235 | so does every run |
| LinkRuns.ConnectionSafety | net/LinkedSocket.cpp:77-235 | in every run, whatever the callbacks do: accepted bytes and backlog are the submitted bytes, each once; write interest matches backlog, registration views agree, the destructor's deregistration is legal, and the connection closes at most once |
| LinkRuns.StepOrder | net/LinkedSocket.cpp:77-235 | a step hands over what it submits in order if and only if every high-water callback in it commutes |
| LinkRuns.OrderIff | net/LinkedSocket.cpp:77-235 | in every run accepted bytes and backlog are the submitted messages in order if and only if every high-water callback commutes with the rest it precedes |
| LinkRuns.StepLog | net/LinkedSocket.cpp:140-148 | a step keeps the log of half-closes free of missing bytes if and only if no high-water callback in it shuts down with nothing queued |
| LinkRuns.DrainBeforeHalfClose | net/LinkedSocket.cpp:140-148 | in every run, every half-close before disconnection finds as many bytes accepted as were submitted, in an orderly run the same bytes, if and only if no high-water callback shuts down with nothing queued, whichever threads called |
| LinkRuns.PromisesIff | net/LinkedSocket.cpp:77-235 | both promises hold after a run if and only if every high-water callback commutes and none shuts down with nothing queued |
| LinkRuns.ConsiderateRun | net/LinkedSocket.cpp:117-122 | an owner whose high-water callbacks neither send nor shut down has both promises in every run |
| LinkRuns.OffLoopInOrder | net/LinkedSocket.cpp:41-46 | sends from another thread go out in the order of the calls |
| LinkRuns.QuietForever | net/LinkedSocket.cpp:140-148 | disconnected, or shutting down with no backlog and no non-empty send queued, no run writes another byte |
| LinkRuns.BacklogWrites | net/LinkedSocket.cpp:190-198 | a backlog is written by the next POLLOUT, whatever was called before |
| LinkRuns.LateSend | net/LinkedSocket.cpp:77-129 | shutting down without a backlog, with a non-empty send queued, some run writes |
| LinkRuns.SilentIff | net/LinkedSocket.cpp:131-148 | a connection that is no longer up is silent in all runs if and only if it is disconnected, or has no backlog and no non-empty send queued |
| LinkRuns.SendAfterHalfClose | net/LinkedSocket.cpp:131-138 | the concrete run: a send from another thread, a shutdown on the loop thread, the half-close, and then a write of which the kernel takes n bytes and leaves the rest as a backlog with nothing queued |
| LinkRuns.LostAfterHalfClose | net/LinkedSocket.cpp:100-111 | the same run with a kernel that answers EPIPE: the message is neither accepted nor queued |
| LinkRuns.FaultLoses | net/LinkedSocket.cpp:100-111 | so it is with every send that is run with no backlog and finds the peer gone: only its functor disappears |
| LinkClosing.StepCount | net/LinkedSocket.cpp:131-221 | a step half-closes once for a shutdown that takes effect with nothing queued, and once for a backlog emptied with the connection no longer up |
| LinkClosing.RunShutdowns | net/LinkedSocket.cpp:131-148 | from any state one such shutdown at most is left while the connection is up, and then those queued |
| LinkClosing.RunBacklogs | net/LinkedSocket.cpp:201-209 | from any state one such backlog at most is left, and one more for each send that is or gets queued by another thread |
| LinkClosing.HalfCloseCount | net/LinkedSocket.cpp:131-221 | in every run the number of half-closes is that of the two kinds together: one shutdown at most, and at most one backlog more than there are sends from other threads |
| LinkClosing.WriteClosesCleanly | net/LinkedSocket.cpp:190-221 | after a clean history, a `handleWrite` makes the second half-close exactly when its callback shuts down with nothing queued, unless a high-water callback cuts a message off |
| LinkClosing.LoopOnlyHalfClose | net/LinkedSocket.cpp:131-148 | with all calls on the loop thread: two half-closes at most, and two if and only if a callback made by `handleWrite` shuts down, or a high-water callback does and the cut-off message is written; if none does, each half-close finds everything accepted and nothing follows it, otherwise the first misses bytes |
| LinkClosing.HalfCloseWhenDrained | net/LinkedSocket.cpp:199-210 | a shutdown made with a backlog half-closes in exactly the `handleWrite` that empties it, when everything handed over is accepted, whatever the callback does |
| LinkClosing.ForceCloseInCallback | net/LinkedSocket.cpp:204-209 | a `forceClose` in the callback of the write that empties the backlog half-closes too |
| LinkClosing.TwoHalfCloses | net/LinkedSocket.cpp:201-209 | the concrete run: a message left to `handleWrite`, and a write-complete callback that shuts down |
| LinkClosing.HighWaterTwoHalfCloses | net/LinkedSocket.cpp:117-122 | the concrete run: a high-water callback that shuts down, and the write of the message it cut off |
| LinkClosing.OffLoopTwoHalfCloses | net/LinkedSocket.cpp:131-148 | the concrete run: a shutdown from another thread with a backlog, which half-closes in `handleWrite` and again in its queued half |
| LinkedSockets.LinkedSocket.constructor | net/LinkedSocket.cpp:13-28 | connected, nothing buffered, not registered yet |
| LinkedSockets.LinkedSocket.Prepare | net/LinkedSocket.cpp:243-246 | registered for reading; no other registration changes |
| LinkedSockets.LinkedSocket.WatchWriting | net/LinkedSocket.cpp:123-127 | write interest is changed and passed on to the kernel; the assertion of `updateInPoll` holds |
| LinkedSockets.LinkedSocket.WatchNothing | net/LinkedSocket.cpp:229-231 | all interest is withdrawn and the kernel told; the assertion of `updateInPoll` holds |
| LinkedSockets.LinkedSocket.EnqueueRest | net/LinkedSocket.cpp:122-127 | the rest is queued last, and writability watched |
| LinkedSockets.LinkedSocket.CallHighWater | net/LinkedSocket.cpp:116-121 | the callback is made exactly when the backlog is about to cross the mark upwards, with its size to be, and whatever the owner does in it is carried out on the object |
| LinkedSockets.LinkedSocket.WriteDirectly | net/LinkedSocket.cpp:89-111 | the direct write is made exactly when nothing is queued, and accounts for what it took |
| LinkedSockets.LinkedSocket.QueueRest | net/LinkedSocket.cpp:113-128 | what was not taken goes behind whatever the callback left queued; the object stays valid |
| LinkedSockets.LinkedSocket.SendInLoop | net/LinkedSocket.cpp:77-129 | refines the protocol step for every kernel result and everything the owner does in the write-complete and the high-water callback; says when the latter is made; other registrations kept |
| LinkedSockets.LinkedSocket.Perform | net/LinkedSocket.cpp:34-157 | the owner's calls from a callback, made one after the other on the object, refine the protocol |
| LinkedSockets.LinkedSocket.Send | net/LinkedSocket.cpp:34-48 | sends only while connected; off the loop thread exactly the message is queued |
| LinkedSockets.LinkedSocket.SendBuffer | net/LinkedSocket.cpp:50-65 | as for a message, also with the connection's own input buffer; the buffer is emptied exactly when the connection is up |
| LinkedSockets.LinkedSocket.Shutdown | net/LinkedSocket.cpp:131-138 | refines the protocol step; off the loop thread only the state changes and the second half is queued |
| LinkedSockets.LinkedSocket.ShutdownInLoop | net/LinkedSocket.cpp:140-148 | half-closes exactly when nothing is waiting to be written |
| LinkedSockets.LinkedSocket.HandleRead | net/LinkedSocket.cpp:169-188 | received bytes are appended to the input; the owner is called exactly for a positive count; 0 closes; an error changes nothing |
| LinkedSockets.LinkedSocket.TakePart | net/LinkedSocket.cpp:195-198 | a part taken from the backlog leaves the rest in order |
| LinkedSockets.LinkedSocket.TakeRest | net/LinkedSocket.cpp:195-202 | with the rest taken, writability is no longer watched; the assertion of `updateInPoll` holds |
| LinkedSockets.LinkedSocket.BacklogDrained | net/LinkedSocket.cpp:204-209 | the callback runs first, on the object, and then the test for a shutdown half-closes |
| LinkedSockets.LinkedSocket.HandleWrite | net/LinkedSocket.cpp:190-221 | refines the protocol step for every kernel result and every callback |
| LinkedSockets.LinkedSocket.HandleClose | net/LinkedSocket.cpp:223-235 | with its assertion met, refines the protocol step; the assertion of `updateInPoll` holds |
| LinkedSockets.LinkedSocket.QueueInLoop | net/LinkedSocket.cpp:45 | the functor goes behind those this connection has queued |
| LinkedSockets.LinkedSocket.RunFunctor | net/LinkedSocket.cpp:67-166 | the oldest functor runs and refines the protocol: a send checks for disconnection only, a shutdown half-closes without a backlog, a forced close finds nothing to do |
| LinkedSockets.LinkedSocket.ForceClose | net/LinkedSocket.cpp:150-157 | changes the state only, and queues the second half exactly when the connection was up |
| LinkedSockets.LinkedSocket.ForceCloseInLoop | net/LinkedSocket.cpp:159-166 | closes exactly when the state is still connected |
| LinkLoops.HandleEvent | net/FdHandler.cpp:18-58 | one dispatch on an object, with any calls of the owner in the read and the callbacks, refines the protocol's dispatch |
| LinkLoops.CallFromOtherThread | net/LinkedSocket.cpp:34-157 | a call from another thread changes the state at once and queues the rest |
| LinkLoops.RunEvent | net/LinkedSocket.cpp:34-235 | one event takes the object through one step of the protocol |
| LinkLoops.RunEvents | net/LinkedSocket.cpp:34-235 | a list of calls, queued functors and dispatches takes the object through the states of the run, so that what is proved of runs holds of it; only a read of more bytes than are offered is refused |
| HttpSessions.ServeOneMore | net/simple_http/HttpServer.cpp:75-91 | one more delivered request adds its response to the output, unless an earlier response closed |
| HttpSessions.ServeRejected | net/simple_http/HttpServer.cpp:62-66 | a rejection adds "HTTP/1.1 400 Bad Request" and an empty line, unless an earlier response closed |
| HttpSessions.ServePrefix | net/simple_http/HttpServer.cpp:53-91 | delivering fewer of the requests yields a prefix of the output, never different output |
| HttpSessions.RunKeeps | net/simple_http/HttpServer.cpp:53-91 | in every run the submitted bytes are the output deserved by the delivered requests, and the connection is up until the first closing response or rejection |
| HttpSessions.EndToEnd | net/simple_http/HttpServer.cpp:53-91 | for every split of the input, every choice of partial writes and dispatches that read and write at once: accepted bytes and backlog are the responses to the delivered requests cut after the first close or 400, a prefix of what the whole input deserves, and all of it when no whole line is waiting |
| HttpSessions.DeliveryDecides | net/simple_http/HttpServer.cpp:77-90 | with a callback that keeps the preset flag, a step that delivers a request leaves the connection up unless its Connection field is "close", or its version is HTTP/1.0 and the field is not "Keep-Alive" |
| HttpSessions.UpIffNoneAsked | net/simple_http/HttpServer.cpp:53-91 | after any run the connection is up if and only if no line was rejected and no delivered request asks to close in that sense |
| HttpSessions.BadRequestOnWire | net/simple_http/HttpServer.cpp:64 | the answer to a rejected line, letter by letter; it has the form of a printed response with the code 400 |
| HttpSessions.DefaultServer | net/simple_http/HttpServer.cpp:11-16 | with the default callback a run that delivers a request answers 404 once, letter by letter, and shuts down |
| HttpExchanges.PipelineRead | net/simple_http/HttpContext.cpp:51-109 | pipelined requests are read back one by one with nothing left, whatever white space surrounds their field values |
| HttpExchanges.PipelinedExchange | net/simple_http/HttpServer.cpp:53-91 | a client that pipelines requests, in any fragments and over any partial writes, finds by Content-Length the body of each response, in order and nothing else |
| HttpExchanges.DefaultPersistence | net/simple_http/HttpServer.cpp:77-80 | without a Connection field HTTP/1.1 persists and HTTP/1.0 does not |
| HttpExchanges.PipelinePersists | net/simple_http/HttpServer.cpp:77-90 | while a pipeline is received, in any fragments, the connection is up if and only if none of the requests delivered so far asks to close |
| HttpExchanges.Http11StaysUp | net/simple_http/HttpServer.cpp:77-90 | a pipeline of HTTP/1.1 requests without Connection fields stays up |
| HttpServers.HttpServer.constructor | net/simple_http/HttpServer.cpp:22-30 | the callback given is the one used |
| HttpServers.HttpServer.RcvRequest | net/simple_http/HttpServer.cpp:75-91 | refines the specified reply: the printed response is sent and the connection shut down exactly when the response says so |
| HttpServers.HttpServer.PrintAnswer | net/simple_http/HttpServer.cpp:77-85 | the new buffer holds the printed response of the callback, whose close flag was preset from version and Connection field (section 6.3 of RFC 7230) |
| HttpServers.HttpServer.SendAndMaybeClose | net/simple_http/HttpServer.cpp:86-90 | sends the buffer, then shuts down if asked |
| HttpServers.HttpServer.Reject | net/simple_http/HttpServer.cpp:62-66 | sends the 400, then shuts down |
| HttpServers.HttpServer.RcvMessage | net/simple_http/HttpServer.cpp:53-73 | one parse and at most one reaction; the context is resumable afterwards, and after an accepted call ready for the assertion of `setMethod` |
| HttpServers.HttpServer.OnReadable | net/LinkedSocket.cpp:169-188 | read and reaction together refine the protocol's read, and context and input buffer become those of a receiver given the new bytes |
| HttpServers.HttpServer.CloseAndRead | net/FdHandler.cpp:47-53 | the close branch comes before the read branch, and both refine the protocol |
| HttpServers.HttpServer.WriteIfReported | net/FdHandler.cpp:55-57 | the POLLOUT branch refines the protocol's write |
| HttpServers.HttpServer.HandleEvent | net/FdHandler.cpp:18-58 | one dispatch on the real objects refines the protocol's dispatch and the receiver's step; no assertion breaks under bits as epoll reports them |
| HttpServers.HttpServer.NewConnection | net/simple_http/HttpServer.cpp:93-108 | a new connection, prepared and with its context, is in the initial state of a session |
| HttpServers.HttpServer.ServeOneEvent | net/FdHandler.cpp:18-58 | one dispatch takes the objects from the state of a session to the state after its step |
| HttpServers.HttpServer.Serve | net/FdHandler.cpp:18-58 | a list of dispatches takes the objects through the states of the session run, so that what is proved of runs holds of the objects; only an event with more bytes than the read offers is refused |
| HttpServers.SessionStepIsDispatch | net/FdHandler.cpp:51-57 | the steps of an end-to-end run are dispatches of POLLIN, of POLLOUT or of both, as epoll reports them |
| ThreadPools.EventLoopThreadPool.constructor | net/EventLoopThreadPool.cc:18-25 | no call was made yet |
| ThreadPools.EventLoopThreadPool.GetNextLoop | net/EventLoopThreadPool.cc:53-70 | call number k returns loop k mod n, or the base loop when there is none |
| ThreadPools.EventLoopThreadPool.GetLoopForHash | net/EventLoopThreadPool.cc:72-82 | the loop at the hash code modulo n, or the base loop |
| ThreadPools.Shares | net/EventLoopThreadPool.cc:59-68 | in any window of calls every loop is chosen q times, and those whose turn comes first once more |
| ThreadPools.RoundRobinIsFair | net/EventLoopThreadPool.cc:59-68 | over any window of calls the counts of two loops differ by at most one |
| StartHandshake.RunKeeps | net/EventLoopThread.cc:38-75 | in every interleaving, who holds which mutex, who sleeps, and what is published fit together |
| StartHandshake.ReturnsPublishedLoop | net/EventLoopThread.cc:38-69 | `startLoop` returns only the new thread's own loop, after the init callback and the hand-over of the thread id |
| StartHandshake.NoLostWakeup | base/ThreadUtil.cpp:40-57 | until the return some thread can move without a spurious wake-up and without leaving the loop |
| StartHandshake.MoveLowersMeasure | base/ThreadUtil.cpp:40-57 | every move but a spurious wake-up lowers the measure |
| StartHandshake.RunsAreBounded | net/EventLoopThread.cc:38-75 | no run has more moves than the measure of its start and three per spurious wake-up |
| StartHandshake.StoppedMeansReturned | net/EventLoopThread.cc:38-75 | a run that can go on with spurious wake-ups only has returned from `startLoop`, or the loop was left early |
| StartHandshake.CanReturn | net/EventLoopThread.cc:43-53 | from every reachable state where the loop was not left early, a run to the return exists |
| StartHandshake.ReturnsIffNotEarly | net/EventLoopThread.cc:71-74 | the return is still possible if and only if the new thread has not left its loop before it was read |
| StartHandshake.EarlyExit | net/EventLoopThread.cc:56-75 | such an early exit is reachable, and no run returns after it |

## Left out

- Real system calls, addresses, socket options, logging and timers: nondeterministic results or nothing.
- `Epoll::poll`: the growth of its event array and the list of active handlers; a dispatch is given the reported bits instead.
- `TcpServer`: its connection map and naming, `newConnection`, `delConnection` and the life of an object after `handleClose`; a connection is kept alive through its dispatch.
- A `rcvMessage` on a connection whose context was never set returns at once; the model starts from a connection with a context.
- `EventLoop`: taken as "run now on the loop thread, otherwise queue in order"; wake-up and `quit` are not modelled.
- `EventLoopThreadPool::start`: the list of loops is given; a loop is a number.
- Unsynchronised reads of `state_` between threads: each method is one step.
- Callbacks: the HTTP callback is a function of the request and the preset response, and does not call back into the connection. The write-complete and the high-water callback may do anything in the protocol, its runs and `LinkedSocket`; in the HTTP sessions they do nothing. What a callback does to a buffer that is being sent is not followed: the bytes are those at the call.
- `std::map`: request headers are a map; response headers are given in the order of iteration, and every order is allowed.
- Sizes of `size_t`: unbounded, except where `StringPiece` narrows them to `int`; a negative length is excluded by the precondition of the append.
- `isspace` on octets above 127: taken as in the C locale.
- The four widths of the integer functions are one function with a width each; `Buffer::swap`, `internalCapacity` and the commented-out `shrink` are not modelled.
- HTTP bodies of requests, HEAD-specific responses, chunked coding and folding of header names in the parser: the code has none.
- Inheritance: `LinkedSocket` holds its `FdHandler`, and the virtual calls of `handleEvent` are those of the HTTP server's connection.
- HttpSessions.EndToEnd: reads end at the first rejected line and no direct write faults, because after either the code's own assertion or the loss of a message takes over; `LinkRuns.ConnectionSafety` covers faulting writes.
- HttpFraming.SelfDelimiting: a user-set Transfer-Encoding field is outside the receiver modelled, which goes by Content-Length only.
