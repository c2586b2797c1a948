# What the load generator's core computes, proved

This project models the parts of the load generator that compute something hard to see at a glance, and proves what
they are for. `dafny verify dfyconfig.toml` checks all of it.

**The HTTP parser** (`src/http_parser.c`, strict mode). `Machine.dfy` is the switch of `http_parser_execute` on one
byte, `Bytewise.Run` folds it over a string, and the class in `HttpParser.dfy` is the C function itself: one call on a
buffer, with its marks, its bulk scans of header names, values and bodies, the unchecked `memchr` skip, the header
limit (`Limits.dfy`) and the end of the stream. `Execute` is proved to do what the bytes one by one do, and to be stopped
by the header limit under exactly one condition. On that rest:

- no byte can break an internal assertion (`Invariant.dfy`, `Marks.dfy`);
- a stream in pieces leaves what its bytes one by one do if and only if no call is stopped by the header limit, skips a
  control byte or follows an upgrade (`Splitting.dfy`, `Feeding.dfy`); the limit stops none when no header part is longer
  than half of it, whatever the pieces, and for longer parts when enough bytes lie between the cuts (`Spacing.dfy`); for
  a printed request the condition can be read off the text (`HeadCuts.dfy`, `Cuts.dfy`);
- the callbacks always follow the message grammar, with exact byte counts (`Grammar.dfy`, `CallGrammar.dfy`);
- the five header names are recognised exactly (`HeaderNames.dfy`);
- a Content-Length is exact or refused, and what a program is told at the end of the headers is the length it was told
  with them (`Lengths.dfy`, `Announced.dfy`);
- a chunk size in hexadecimal digits is exact or refused; what else passes for a digit is said exactly (`Chunks.dfy`,
  `ChunkSizes.dfy`);
- every request that `wrk.format` prints is read back as itself, any number of them in a row (`Journeys.dfy`,
  `HeaderLines.dfy`, `Methods.dfy`, `RequestLines.dfy`, `Requests.dfy`, `Wrk.dfy`);
- any request or response is told as itself and ends where its head says: the flags that the parser keeps are what the
  text of the headers says (`Connections.dfy`, `Fields.dfy`, `StartLines.dfy`), and body, end of stream and whether the
  connection goes on follow sections 3.3.3 and 6.3 of RFC 7230 under exactly stated conditions (`Messages.dfy`,
  `Sessions.dfy`, `Refusals.dfy`, `LineEnds.dfy`, `Tolerance.dfy`);
- every chunked upload is delivered unchanged, and so is any sequence of uploads and printed requests, in all pieces in
  which no call is stopped by the header limit, and so in any pieces when the header parts keep to half of it
  (`Chunks.dfy`, `ChunkedMessages.dfy`, `Streams.dfy`; section 4.1 of RFC 7230);
- a URL is cut into fields that lie in order, a printed URL is cut into its components, and which texts are accepted is
  said by a grammar (`Urls.dfy`, `UrlText.dfy`, `UrlGrammar.dfy`, `Classes.dfy`; section 3 of RFC 3986).

**The header buffer** (`Buffers.dfy`): what the callbacks write into it, however fragmented, is what the response
script is given, and no terminator is written outside it.

**The timers** of the event loop (`Timers.dfy`, `EventLoop.dfy`): a linked list with lazy deletion, and one pass over it
with callbacks that create and delete timers.

**The statistics** (`Histograms.dfy`, `Stats.dfy`, `Recording.dfy`, `LatencyMap.dfy`): percentiles against sorting, the
correction for coordinated omission in closed form, recording from many threads under every interleaving, and the
latency chart.

**The filter pipelines** of `lib/ltn12.lua` (`Filters.dfy`, `Pipes.dfy`): a chain of filters is a filter, computes the
composition, and comes to an end.

**MD5** in JavaScript (`Md5.dfy`) against RFC 1321, with a digest of its section A.5 (`Md5Suite.dfy`), **the time
scale** of the charts (`Lookup.dfy`) and **the monotone spline** (`Spline.dfy`), whose drawn curve never turns back
between two points.

Conventions: a byte is a `char`, a buffer a `string`. Callbacks are recorded in a list of events; `Trace.Merge` joins
adjacent data callbacks of one kind, because where a string is cut into callbacks is not promised. A clock, and what a
callback of a timer does, are parameters. `Journeys.Goes(s, t, data, s', t', slack)` says that `data` leads the parser
from `s` to `s'`, the callbacks from `t` to `t'`, with `slack` header bytes to spare.

## Where the code does not do what one would expect

- A control byte in a header value is refused unless the `memchr` skip jumps over it. `Splitting.SkipAgreesIff` gives the
  exact condition for the skip to be harmless, and `Splitting.JumpDiffers` what happens otherwise. A caller can rely on
  `Cuts.HarmlessBytes`: a lenient parser, or bytes without control bytes other than TAB, CR and LF. `Cuts.SkippedControl`
  is a request on which a new parser differs.
- The table of hexadecimal digits has 128 of its 256 entries, and the others are zero: a byte beyond ASCII is the digit 0
  of a chunk size. `ChunkSizes.SizeReadIff` says exactly which sizes are taken, and as what; in `ChunkSizes.OddSizeIsZero`
  the byte 0x80 ends a message as its last chunk.
- The header count is one too high after a call exactly when the loop of a header name or value took its last byte, and
  stays so until it is set back at the end of the headers or of a chunk (`Feeding.Lead`). So a printed request is
  delivered if and only if the bytes of its head and the cuts that lie two bytes or more into a name or a value are
  together no more than the limit: `Cuts.HeadFine`. `Cuts.LongCut` is a head that is accepted in one call and not in two.
- The bytes of a chunked trailer are still counted when the next message begins: `ChunkedMessages.GoesUpload`.
- A response with a status that has no body is still given one when it announces a length other than 0 or chunks, such as
  a 304 with the length of the page that is not sent; Transfer-Encoding counts only when its whole value is `chunked`, and
  comes after a length when it is not. `Messages.FramedRightIff` says exactly when a message ends where section 3.3.3 of
  RFC 7230 says, `Messages.NotModifiedWaits` is such a 304, and `Messages.KeptRightIff` says exactly when the connection
  goes on as section 6.3 says.
- In a Connection value an unfinished word takes the next comma for one of its letters, so `keep, close` does not say
  close: `Connections.UnfinishedHides`, `Connections.KeepHidesClose`. Of whole tokens each is heard:
  `Connections.ListSays`.
- An empty line before a response begins a message: `Tolerance.GoesBreaks`.
- `http_parser_parse_url` takes an empty user information and refuses every schema with a digit, `+`, `-` or `.`, and
  every host with `_`: `UrlGrammar.AcceptedIff`, `Classes.HostCharsAre`.
- The latency chart drops samples unless the greatest is at least 100, or at least 10 with an odd first digit:
  `LatencyMap.ShowsAllIff`, with an example in `LatencyMap.ShowsNothing`.
- Rounding in the lookup table moves items when one lies half a step before the middle of its neighbours:
  `Lookup.ExactIff`, `Lookup.HalfIsOff` and, for the items 0, 2 and 3, `Lookup.HalfExample`.
- The inner loop of `stats_correct` ends if and only if the interval is positive or the loop does not begin
  (`Stats.EndsIff`); so `Stats.Stats.Correct` requires a positive interval, or a histogram with no sample above 0.

## Model

| member | source | states |
|---|---|---|
| HttpParser.HttpParser.constructor | src/http_parser.c:2081-2090 | a new parser is in the start state of its kind, has made no callback and satisfies the invariant |
| HttpParser.HttpParser.Execute | src/http_parser.c:631-2028 | if a header byte lies beyond the limit, or the loop of a scan takes the last byte with the count at the limit, the call stops with an overflow, and what it returns, leaves and has called back is that of the bytes one by one up to the place where it stops; otherwise a call with marks, bulk scans and the skip returns, leaves and calls back exactly what its bytes one by one do, with a header count one higher if and only if such a loop took the last byte; an error makes later calls do nothing; an empty buffer is the end of the stream |
| HttpParser.ScanField | src/http_parser.c:1228-1342 | the loop over a header name is its bytes one by one, however many are in the buffer |
| HttpParser.ScanValue | src/http_parser.c:1436-1622 | the loop over a header value is its bytes one by one, with the bytes that the skip passes unchecked |
| HttpParser.SkipValue | src/http_parser.c:1465-1488 | the skip stops at the nearest CR or LF within the header limit, and otherwise at the end of the buffer |
| HttpParser.ScanBody | src/http_parser.c:1820-1855 | taking many body bytes at once delivers and counts what one at a time would |
| Scans.BodyJump | src/http_parser.c:1952-1973 | a run of body bytes is one delivery and one subtraction from the remaining length |
| Bytewise.RunAppend | src/http_parser.c:699-1998 | with every byte checked, a stream may be cut anywhere |
| Bytewise.RunStops | src/http_parser.c:2022-2028 | after an error or an upgrade no byte is looked at |
| Marks.ActInStep | src/http_parser.c:2008-2012 | in every state each byte sets and delivers marks so that never two are live |
| Marks.PerformEmit | src/http_parser.c:2014-2018 | marks and delivery within a larger buffer merge to the bytes one by one |
| Invariant.InvInit | src/http_parser.c:2081-2090 | a new parser satisfies the invariant |
| Invariant.ActSafe | src/http_parser.c:699-1998 | no byte breaks the invariant: matcher indices stay inside their words, lengths in bodies are neither 0 nor 2^64-1, chunk states have the chunked flag, a chunk size starts with one counted byte, no state is unhandled |
| Invariant.RunInv | src/http_parser.c:631-2028 | the invariant holds after every run over any bytes |
| Limits.CountGrows | src/http_parser.c:151-158 | between two points of a run the header count rises by no more than the bytes read, whatever sets it back on the way |
| Limits.ActEnds | src/http_parser.c:699-1998 | a header part ends only with a byte that sets the count back, and no byte by itself reports an overflow |
| Limits.WithinScan | src/http_parser.c:1340 | one check of the limit after a scan is as good as a check at each of its bytes |
| Limits.OverAtLineEnd | src/http_parser.c:1490-1502 | the CR or LF of a value is counted before it is looked at: beyond the limit it stops the call, whatever follows |
| Limits.NotOverAtHalt | src/http_parser.c:151-158 | a call that ends before its last byte with all counted bytes within the limit is not stopped by the limit |
| Splitting.RunAhead | src/http_parser.c:699-704 | the header count decides nothing but the limit |
| Splitting.KeepsLead | src/http_parser.c:151-158 | a count that starts too high stays too high by as much while every byte is counted, and is exact as soon as one is not |
| Splitting.SkipAgreesIff | src/http_parser.c:1465-1488 | the unchecked skip changes the outcome if and only if it jumps over a control byte |
| Splitting.JumpDiffers | src/http_parser.c:1457-1460 | a jumped control byte is an error at its offset when it is checked, and no error when it is not |
| Cuts.HarmlessBytes | src/http_parser.c:1457-1488 | for a lenient parser, or without control bytes other than TAB, CR and LF, the skip makes no difference |
| Cuts.SkippedControl | src/http_parser.c:1457-1488 | a new parser refuses the byte 1 at the end of a value at its offset when it is checked, and takes it when it is skipped |
| Feeding.PieceDone | src/http_parser.c:631-2028 | one call that the limit does not stop and in which no control byte is skipped continues the run of the whole stream, with a header count that is ahead by exactly the lead |
| Feeding.PieceSpoils | src/http_parser.c:631-2028 | any other call takes more bytes than they are one by one, or is stopped by the header limit |
| Feeding.Feed | src/wrk.c:748-780 | for any non-empty pieces: if every call is one that continues the run, the stream ends with the fields, error, offset and merged callbacks of its bytes one by one, and a header count that is ahead by exactly the lead; if one is not, more bytes are taken, or the header limit stops a call, or an error follows the upgrade |
| Feeding.FedIff | src/wrk.c:748-780 | so the result is that of the bytes one by one if and only if every call continues the run |
| Spacing.LeadSpan | src/http_parser.c:1340 | each unit of the lead is a piece that ends within the bytes counted since the count was set back |
| Spacing.SpacedFine | src/http_parser.c:151-158 | with header parts of at most h bytes, and at least h bytes in as many pieces in a row as the limit has to spare, the pieces do not show |
| Spacing.HalfIsSpaced | src/http_parser.c:151-158 | with h up to half of the limit that is true of any non-empty pieces |
| HeadCuts.LineScans | src/http_parser.c:1228-1622 | a call that ends within a header line of a printed request counts a byte too many exactly two bytes or more into the name, or into the value without its leading blanks |
| HeadCuts.HeadScans | src/http_parser.c:917-1720 | and a call that ends elsewhere in the head does not |
| Cuts.HeadFine | src/http_parser.c:151-158 | a printed request in any non-empty pieces is delivered if and only if the bytes of its head and the cuts so deep in names and values are together at most the limit |
| Cuts.FeedRequest | src/wrk.c:748-780 | fed to a new parser, it is the message of the request under that condition, and a header overflow otherwise |
| Cuts.CutOverflows | src/http_parser.c:1340 | with a head of exactly the limit, in two calls, the second overflows if and only if the cut is so deep in a name or a value |
| Cuts.LongCut | src/http_parser.c:1340 | such a request, accepted in one call and not in two |
| Grammar.ParsePush | src/http_parser.c:102-138 | merging adjacent data callbacks and following the grammar commute |
| Grammar.ActGrammar | src/http_parser.c:699-1998 | every byte keeps the callbacks in the grammar and in step with the state, bodies and chunks with their byte counts |
| Grammar.RunGrammar | src/http_parser.c:699-2020 | every run makes callbacks that are a prefix of begin+ (url or status) (field value)* headers (body or chunks with trailers) complete, repeated; a body has exactly its announced length |
| Grammar.InitGrammar | src/http_parser.c:2081-2090 | a new parser stands at the start of the grammar |
| Grammar.EofKeepsGrammar | src/http_parser.c:653-659 | the end of the stream completes a body without a length, in the grammar |
| CallGrammar.CallKeepsGrammar | src/http_parser.c:631-2028 | one call, with whatever buffer and outcome, keeps the merged callbacks in the grammar |
| CallGrammar.Connection | src/http_parser.c:631-2028 | any bytes in any pieces, with or without an end of stream, make callbacks in the grammar, and every length announced with the end of the headers is the number in the Content-Length delivered before it in the same message, or the greatest 64-bit number without one |
| HeaderNames.NameStands | src/http_parser.c:1228-1342 | after each byte of a name the nested matchers stand where the letters so far, whatever their case, say |
| HeaderNames.NameRecognised | src/http_parser.c:1228-1342 | a header is taken for one of the five exactly when its name in lower case is one of the five |
| HeaderLines.GoesLine | src/http_parser.c:1178-1700 | a header line with any other name delivers the name and the value without leading blanks, and changes nothing else |
| Lengths.Decimal | src/wrk.lua:61 | decimal digits whose value is the number |
| Lengths.GoesDigits | src/http_parser.c:1398-1521 | a Content-Length up to the limit is kept exactly, without wrapping around |
| Lengths.DigitsRefused | src/http_parser.c:1507-1517 | a greater one is refused |
| Lengths.GoesLengthLine | src/http_parser.c:1293-1521 | a Content-Length line in whatever case sets exactly the number written |
| Announced.HearMerge | src/http_parser.c:102-138 | what a program reads from names and values does not depend on how they are cut into callbacks |
| Announced.OneMore | src/http_parser.c:1498-1521 | one more byte of a Content-Length: the number grows by a digit, and a blank is skipped |
| Announced.ActTold | src/http_parser.c:699-1998 | in every state each byte keeps the length and its flag what the callbacks have said |
| Announced.LengthsAnnounced | src/http_parser.c:1178-1815 | in every run of a new parser each length announced with the end of the headers is the number in the last Content-Length delivered in the same message, blanks skipped, or the greatest 64-bit number where there was none |
| Announced.CallKeepsStep | src/http_parser.c:631-2028 | so does one call, with whatever buffer and outcome |
| Methods.MethodReached | src/http_parser.c:917-1010 | the name of each of the 33 methods leads the guess-and-correct matcher to that method |
| RequestLines.GoesMethod | src/http_parser.c:917-1010 | a request line starts with any method name and one blank |
| RequestLines.PathIsTarget | src/http_parser.c:484-629 | a path of URL characters from `/` or `*` on is accepted |
| RequestLines.QueryIsTarget | src/http_parser.c:563-593 | so is such a path with a query |
| RequestLines.GoesUrl | src/http_parser.c:1012-1083 | an accepted target is delivered unchanged |
| RequestLines.GoesVersion | src/http_parser.c:1085-1176 | the version 1.1 and the end of the request line |
| RequestLines.GoesWholeBody | src/http_parser.c:1820-1869 | a body of known length is delivered unchanged and completes the message at its last byte |
| Requests.GoesHeaders | src/http_parser.c:1178-1700 | the header table is delivered pair by pair, in the order printed |
| Requests.GoesRequest | src/http_parser.c:917-1869 | a printed request is delivered as itself, with its body, and leaves the parser ready for the next |
| Connections.GoesConnectionLine | src/http_parser.c:1405-1700 | a Connection or Proxy-Connection line with any value is delivered, and with the next byte exactly those of the three flags are set whose word its text says |
| Connections.ListSays | src/http_parser.c:1533-1611 | a list of tokens, none of them an unfinished word, says keep-alive, close or upgrade if and only if that word is one of them, in whatever case |
| Connections.UnfinishedHides | src/http_parser.c:1558-1584 | behind an unfinished word no word is heard |
| Connections.KeepHidesClose | src/http_parser.c:1558-1584 | the value `keep, close` does not say close |
| Fields.LengthIs | src/http_parser.c:1398-1521 | with one Content-Length in a header list, the number kept is the one in it |
| Fields.GoesField | src/http_parser.c:1178-1700 | a header line of any name is delivered, and changes exactly the flags and the length that its text says |
| Fields.GoesFields | src/http_parser.c:1178-1700 | after any header list all pairs are delivered in order, and flags and length are what the list says: chunked if a Transfer-Encoding is that word alone, keep-alive, close and upgrade if a Connection says them, upgrade if there is a non-empty Upgrade, a length if there is a Content-Length |
| StartLines.GoesStart | src/http_parser.c:755-1176 | a request line of any method and version, or none, and a status line with any code up to 999, with or without a reason, is delivered as itself and leaves method, version and status as written |
| StartLines.HostIsAuthority | src/http_parser.c:543-561 | a host and a port are accepted as the target of a CONNECT |
| Messages.GoesHead | src/http_parser.c:755-1815 | a head is told as itself, with the length, the chunks and the upgrade that its text announces, and the message is complete with it exactly if its framing is nothing |
| Messages.FramedRightIff | src/http_parser.c:2033-2053 | the framing of the parser is that of section 3.3.3 of RFC 7230 if and only if a status without body announces neither chunks nor a length other than 0, a CONNECT neither an encoding nor such a length, and an encoding is chunked alone, or does not end with chunked, belongs to a response and comes without a length |
| Messages.AloneEndsChunked | src/http_parser.c:1384-1531 | an encoding that is chunked alone has chunked as its final coding |
| Messages.NotModifiedWaits | src/http_parser.c:1774-1811 | a 304 with the length 5 has no body, and the parser waits for five bytes |
| Messages.KeptRightIff | src/http_parser.c:2056-2071 | the connection goes on as section 6.3 of RFC 7230 says if and only if the body runs to the end of the stream, or both digits of the version are positive, or a version before 1.1 does not say both words, or a later one that ends with 0 says exactly one |
| Messages.GoesMessage | src/http_parser.c:755-1989 | any request or response, with any headers, is told as itself: without a body it completes at the empty line, with a length after exactly that many bytes, with chunks at the last chunk, and otherwise waits for the end of the stream; then the parser is at the start of the next message or dead, as version and Connection say |
| Messages.UpgradeExits | src/http_parser.c:1732-1785 | a CONNECT, or an upgrade without a body, is complete with its head, and the parser stops there, whatever follows |
| Messages.UpgradeBodyExits | src/http_parser.c:1862-1869 | an upgrade with a body is complete with its body, and the parser stops there |
| Sessions.GoesSession | src/http_parser.c:755-1989 | any number of messages on one connection, each but the last letting it go on |
| Sessions.FeedSession | src/http_parser.c:631-2028 | given to a new parser in any non-empty pieces and then the end of the stream, all of them are delivered and complete if and only if no call is stopped by the limit, and a header overflow is reported otherwise; none is when the header parts keep to half of the limit, or to h bytes with enough bytes between the cuts |
| Refusals.ClosedAfter | src/http_parser.c:708-716 | after a message that ends the connection any byte but CR and LF is refused at its offset |
| Refusals.BothRefused | src/http_parser.c:1716-1722 | a head with chunks and a length is refused at its last byte |
| Refusals.SecondLengthRefused | src/http_parser.c:1398-1410 | a second Content-Length is refused at its first digit |
| LineEnds.LfForCrlf | src/http_parser.c:840-1720 | where a line of a head may end, LF alone leaves the parser, the callbacks and the outcome that CR LF leave, whatever follows |
| Tolerance.GoesBreaks | src/http_parser.c:708-774 | line ends before a request change nothing, and each of them before a response begins a message |
| Tolerance.GoesFold | src/http_parser.c:1638-1643 | a line that begins with a blank goes on with the value before it, blank and all |
| Tolerance.FoldedLengthRefused | src/http_parser.c:1398-1403 | a Content-Length that goes on in a second line is refused |
| Tolerance.EitherFinds | src/http_parser.c:718-754 | a parser of either kind is one for responses after "HT", and one for requests after "HE" or any other first character |
| Classes.TokensAre | src/http_parser.c:186-218 | the table has exactly the token characters of RFC 7230 section 3.2.6, in lower case |
| Wrk.Wrk.constructor | src/wrk.lua:1-10 | the defaults GET, `/` and no body |
| Wrk.Wrk.Format | src/wrk.lua:50-72 | the text is the request line, a listing of the table, an empty line and the body; the listing has every pair that the table had but Content-Length, Host with its own value or else the default one, Content-Length exactly with a body and with its length, and no other; the table it was given is changed in place, the one shared by default included |
| Wrk.Lines | src/wrk.lua:64-66 | the loop over the table lists every pair once |
| Wrk.CompletedPrints | src/wrk.lua:50-72 | the completed table has every pair given but a Content-Length, Host from the defaults when it has none and they have one, Content-Length exactly with a body, and nothing else |
| Wrk.FormattedIsGood | src/wrk.lua:50-72 | what format prints, whatever the order of the table, is a request that the parser reads back |
| Wrk.GoesRequests | src/http_parser.c:917-1869 | any number of printed requests one after the other |
| Wrk.ManyComplete | src/script.c:269-273 | k requests make exactly k message_complete callbacks |
| Wrk.VerifyRequest | src/script.c:275-310 | on k printed requests, with heads up to the limit itself, every byte is parsed, the count is k, and the callbacks deliver each request unchanged |
| Bytes.Hex | src/http_parser.c:1871-1922 | hexadecimal digits whose value is the number |
| Chunks.GoesSize | src/http_parser.c:1871-1922 | a chunk size in such digits, up to the limit, is kept exactly |
| Chunks.SizeRefused | src/http_parser.c:1909-1917 | a greater one is refused before it could wrap around |
| ChunkSizes.SizeReadIff | src/http_parser.c:1871-1922 | with the table at lines 221 to 231, the bytes before the end of a chunk size are taken if and only if each is a hexadecimal digit or at least 0x80 and the size is within the limit, and the size is their value with a zero for every byte that is no digit; otherwise the first byte that breaks this is refused with its own error |
| ChunkSizes.OddSizeIsZero | src/http_parser.c:1871-1915 | from a new parser, a request whose last chunk has the byte 0x80 for its size is complete |
| Chunks.GoesSizeLine | src/http_parser.c:1871-1950 | a size line, with or without an extension, calls chunk_header with the size |
| Chunks.GoesChunk | src/http_parser.c:1871-1989 | a chunk makes one chunk_header, its data unchanged, and one chunk_complete |
| Chunks.GoesChunks | src/http_parser.c:1871-1989 | so do any number of chunks, in order |
| Chunks.GoesAllButLast | src/http_parser.c:1178-1720 | before the last byte of the body all chunks and trailers are delivered and the message is not complete |
| Chunks.GoesChunked | src/http_parser.c:1705-1869 | the last byte completes the message |
| ChunkedMessages.GoesEncodingLine | src/http_parser.c:1305-1531 | the value chunked is recognised in whatever case |
| ChunkedMessages.GoesUpload | src/http_parser.c:917-1989 | a request with a chunked body and trailers is delivered as itself, also behind the trailers of another, and leaves its own trailers counted |
| ChunkedMessages.UploadCarries | src/http_parser.c:1952-1989 | the data given to on_body is the data of the chunks, in order |
| ChunkedMessages.FeedUpload | src/http_parser.c:631-2028 | in any non-empty pieces a new parser delivers the upload, with its body and exactly the callbacks of the encoding, if and only if no call is stopped by the limit, and reports a header overflow otherwise; none is when head, size lines and trailers keep to half of the limit each, or to h bytes with enough bytes between the cuts |
| Streams.GoesStream | src/http_parser.c:917-1989 | any sequence of printed requests and chunked uploads on one connection is delivered message by message |
| Streams.FeedStream | src/http_parser.c:631-2028 | a new parser does the same with the stream in any non-empty pieces, if and only if no call is stopped by the limit, and reports a header overflow otherwise; none is when the header parts keep to half of the limit, or to h bytes with enough bytes between the cuts |
| Urls.StagesRise | src/http_parser.c:484-629 | the states of a URL never go back, and stay only within a field or a delimiter |
| Urls.AuthorityInside | src/http_parser.c:2197-2206 | for every buffer of every length, the authority that is cut again lies inside the buffer |
| Urls.AfterAuthority | src/http_parser.c:543-561 | what follows the authority is `/`, `?` or the end |
| Urls.PortDigitsAt | src/http_parser.c:2368-2378 | strtoul reads exactly the digits of the port field |
| Urls.ParseHost | src/http_parser.c:2192-2272 | the loop cuts the authority as its characters one by one do |
| Urls.ScanUrl | src/http_parser.c:2279-2347 | the loop finds the fields that its characters one by one do |
| Urls.ParseUrl | src/http_parser.c:2279-2381 | acceptance and the fields in terms of the two scans; on an accepted URL of at most 65535 bytes the result is well cut |
| Urls.AcceptedIsWellCut | src/http_parser.c:2279-2381 | set fields are not empty, lie in the buffer, are disjoint and in the order of a URL; a schema comes with a host; the port is the value of its digits and fits 16 bits |
| UrlText.RoundTrip | src/http_parser.c:2279-2381 | a printed URL is accepted and every field, the port included, is exactly its component, or absent with it |
| UrlGrammar.AcceptedIff | src/http_parser.c:2279-2381 | a text of at most 65535 bytes is accepted if and only if it is empty, a path from `/` or `*` on with an optional query and fragment, or letters, `://`, optional user information and `@`, a name or a bracketed address with an optional zone, an optional port of digits up to 65535, and nothing, a path or a query, with a fragment behind these |
| UrlGrammar.AuthorityEnds | src/http_parser.c:2114-2272 | an authority is taken if and only if there is a host, with user information before it exactly when there is an `@`, and nothing or a colon and digits behind it |
| UrlGrammar.PortBehind | src/http_parser.c:2232-2240 | the port found is exactly the digits behind the host |
| Classes.UserinfoIs | src/http_parser.c:417-419 | exactly the user information characters of RFC 3986 |
| Classes.UrlCharsAre | src/http_parser.c:240-275 | every path character of RFC 3986, and the other visible ones but `#` and `?` |
| Classes.HostCharsAre | src/http_parser.c:426 | of the characters of a registered name exactly `_~%` and the delimiters are refused |
| Buffers.Buffer.Append | src/script.c:566-575 | the bytes are added, the old ones kept when the buffer moves, and two bytes of room are left |
| Buffers.Buffer.Terminate | src/wrk.c:610 | a terminator is written only where the buffer has room |
| Buffers.Buffer.PushLString | src/script.c:581-585 | the string up to the first NUL, and the position after it |
| Buffers.Connection.HeaderField | src/wrk.c:607-615 | a name adds its bytes, after a terminator when a value came before |
| Buffers.Connection.HeaderValue | src/wrk.c:617-625 | a value adds its bytes, after a terminator when a name came before |
| Buffers.Connection.ResponseBody | src/wrk.c:627-631 | body bytes are collected in order |
| Buffers.Connection.ResponseComplete | src/wrk.c:652-656 | the headers, a table that binds every name to the value of its last header, and the body are handed over, and both buffers emptied |
| Buffers.Pairs | src/script.c:174-190 | the loop decodes exactly the headers in order, and the table binds every name in them to the value of its last header, and no other name |
| Buffers.EncodeInjective | src/script.c:174-190 | different header lists have different bytes |
| Buffers.StoredMerge | src/wrk.c:607-625 | how names and values are cut into callbacks does not show in the buffer |
| Buffers.StoredPairs | src/wrk.c:607-656 | the buffer with its last terminator is the encoding of the headers |
| Buffers.Response | src/wrk.c:607-656 | for any fragmentation of one or more NUL-free headers, trailers after body data included, the script is given exactly these headers, the table of their last values and the whole body, on a new connection and on a used one |
| Timers.Later | src/ae.c:189-201 | the time in milliseconds grows by exactly the delay, and the milliseconds stay below 1000 |
| Timers.AtLeast | src/ae.c:315-316 | the comparison of seconds and milliseconds is that of the times |
| Timers.DoAllEffect | src/ae.c:203-233 | creations put new timers in front, each due its own delay after the clock as it is read for it and live unless an operation after it names it; deletions mark, and old timers keep their places |
| Timers.PassIs | src/ae.c:284-332 | one pass, for any clock and any callbacks: every timer is visited once, with the next reading of the clock; it fires exactly when it is live and due at that reading, does what the next callback does, and is armed again from the reading after it; it is unlinked exactly when it was deleted before its visit; timers created meanwhile are not visited, are due their own delay after the clock as it was read for them, and are live unless named since; the list stays newest first |
| Timers.ArrivedOn | src/ae.c:203-220 | a visit and the visits after it make timers that are due their own delay after the clock as it was read for each, and live unless an operation after them names them |
| EventLoop.EventLoop.CreateTimeEvent | src/ae.c:203-220 | a new head with the next id, due exactly the delay after the clock reading, in front of the old list |
| EventLoop.EventLoop.DeleteTimeEvent | src/ae.c:222-233 | the timer is marked, the links stay, and the result says whether the id was there |
| EventLoop.EventLoop.SearchNearestTimer | src/ae.c:246-260 | the earliest timer, the first of those in the list |
| EventLoop.EventLoop.Unlink | src/ae.c:290-301 | a deleted node leaves the list, at the head or behind its predecessor |
| EventLoop.EventLoop.Fire | src/ae.c:315-328 | a due timer runs its callback and is armed again or marked, where it now stands |
| EventLoop.EventLoop.Rewind | src/ae.c:275-281 | after the clock has gone back every timer is set to second 0, and keeps its milliseconds |
| Timers.RewoundDue | src/ae.c:275-281 | then a timer is due exactly when the clock reads a second or more, or at least its milliseconds |
| EventLoop.EventLoop.ProcessTimeEvents | src/ae.c:262-334 | the linked list goes through exactly the pass of this clock and these callbacks, with its visits and removals; the number returned is that of the callbacks run |
| Histograms.RankIsElement | src/stats.c:114-127 | the first entry at which the running sum exceeds k is element k of the sorted samples |
| Stats.Stats.constructor | src/stats.c:11-20 | an empty histogram with twice the slots of its limit |
| Stats.Stats.Record | src/stats.c:28-38 | an accepted sample is added to the multiset, one beyond the limit refused |
| Stats.RankIsPosition | src/stats.c:115-119 | the rounded rank is one more than the position floor(p * count / 100), and the last at 100 |
| Stats.Stats.Percentile | src/stats.c:114-127 | the percentile is the element at that position of the sorted samples, with at most p percent of them below it and more than p percent, or all, not above it; 0 without samples |
| Stats.PercentileMonotone | src/stats.c:114-127 | a greater percentile is not a lesser latency, and all lie between minimum and maximum |
| Stats.PercentileSplits | src/stats.c:114-127 | at most p percent of the samples lie below the percentile, and more than p percent of them, or all, do not lie above it |
| Stats.StridedIsSpread | src/stats.c:67-77 | the entries met by steps are those to which a number of steps leads |
| Stats.Stats.Correct | src/stats.c:67-77 | entry m becomes the sum of the entries m, m + expected, m + 2 * expected, ... as they were, up to the maximum; entries up to expected stay; the count grows by the mass added; nothing changes for an interval of zero without samples above 0 |
| Stats.EndsIff | src/stats.c:71-75 | the inner loop ends if and only if the interval is positive or the loop does not begin |
| Recording.StepInv | src/stats.c:28-38 | the invariant of recording holds after every atomic step of any thread |
| Recording.StepMonotone | src/stats.c:34-35 | no step raises the minimum or lowers the maximum |
| Recording.Quiescent | src/stats.c:28-38 | under every interleaving, once all calls have returned, each number below the limit is counted as often as it was recorded and no other, and count, minimum and maximum are those of these samples |
| Recording.StepFuel | src/stats.c:34-35 | a swap fails only after another call's swap, so every step of a call brings it nearer its end and no step of another takes it further away |
| Recording.Terminates | src/stats.c:28-38 | every one of n calls returns within 4n + 7 of its own steps, whatever the others do |
| LatencyMap.DigitCeil | src/wrk.c:988-997 | the next multiple above x of the power of ten of its first digit, and at most 2x from 10 on |
| LatencyMap.RoundedUnique | src/wrk.c:988-997 | that multiple is determined by the number |
| LatencyMap.Chart | src/wrk.c:999-1018 | the axis is the rounded maximum; all reads lie within the slots allocated, the 20 buckets hold the samples of their intervals, their sum is that of the samples below 20 intervals, the last slot stays empty, and a maximum below 10 gives no chart; all samples are shown exactly when the maximum is at least 100, or at least 10 with an odd first digit |
| LatencyMap.ShowsAllIff | src/wrk.c:999-1018 | for every histogram with samples, the 20 intervals hold all samples if and only if the maximum is at least 100, or at least 10 with an odd first digit |
| LatencyMap.ShowsNothing | src/wrk.c:999-1018 | a single sample of 25 is in no bucket |
| Filters.IdentityObeys | lib/ltn12.lua:29-36 | a filter that passes chunks on keeps to the protocol |
| Filters.TurnKeeps | lib/ltn12.lua:46-65 | every round of the loop calls a filter only as the protocol allows, hands its answer on, and never reaches the error |
| Filters.TurnFlow | lib/ltn12.lua:44-66 | nothing is lost between what the chain takes and the first filter, or the last filter and what it returns |
| Filters.ComesBack | lib/ltn12.lua:55-63 | from a filter behind the first live one the loop comes back, whatever the filters answer |
| Filters.TopEnds | lib/ltn12.lua:44-66 | the loop ends: the chain asks for more or is finished after finitely many rounds |
| Filters.OverIsComposed | lib/ltn12.lua:40-67 | when the chain is finished its output is the composition of the filters on its input |
| Pipes.Chain.Step | lib/ltn12.lua:46-65 | the body of the loop on its variables is one round |
| Pipes.Chain.Call | lib/ltn12.lua:44-66 | the chain is a filter: it answers "" only when it wants more, nil only after the end and then with the composition given, and ever fewer chunks are left |
| Pipes.StringSource.Call | lib/ltn12.lua:111-121 | consecutive blocks of the string, then nil |
| Pipes.SourceChain.Call | lib/ltn12.lua:138-183 | never "", nil only after the composition of the filters on the whole string has been given, and no error branch is reached |
| Pipes.TableSink.Call | lib/ltn12.lua:204-211 | chunks are kept in order |
| Pipes.PumpAll | lib/ltn12.lua:273-291 | the pump ends and the stored text is the composition of the filters on the string |
| Pipes.Filtered | lib/ltn12.lua:273-291 | a string source, a chain of any filters and a table sink put together give the composition of the filters on the string |
| Md5.AddIsAdd | tool/json-generator/web/jquery.md5.js:36-51 | addition from 30-bit pieces is addition modulo 2^32 for all inputs |
| Md5.RotateIsRotate | tool/json-generator/web/jquery.md5.js:33-35 | for every shift used, the two shifts are a rotation |
| Md5.ValueIsStep | tool/json-generator/web/jquery.md5.js:63-78 | FF, GG, HH and II compute the step of section 3.4 of RFC 1321 |
| Md5.Round1 | tool/json-generator/web/jquery.md5.js:141-156 | the first sixteen unrolled statements are steps 1 to 16 |
| Md5.Round2 | tool/json-generator/web/jquery.md5.js:157-172 | the next sixteen are steps 17 to 32 |
| Md5.Round3 | tool/json-generator/web/jquery.md5.js:173-188 | the next sixteen are steps 33 to 48 |
| Md5.Round4 | tool/json-generator/web/jquery.md5.js:189-204 | the last sixteen are steps 49 to 64 |
| Md5.NextByte | tool/json-generator/web/jquery.md5.js:87-92 | setting a byte in place changes one little-endian word as appending it to the message does |
| Md5.LengthWords | tool/json-generator/web/jquery.md5.js:96-97 | the two shifted words are the length in bits as 64 bits, low word first |
| Md5.ConvertToWordArray | tool/json-generator/web/jquery.md5.js:79-100 | for every length below 2^32 the words are the padding of sections 3.1 and 3.2 of RFC 1321 |
| Md5.WordToHex | tool/json-generator/web/jquery.md5.js:101-109 | two digits for each byte, the low-order byte first |
| Md5.Md5 | tool/json-generator/web/jquery.md5.js:129-211 | for any number of blocks the text is the digest of RFC 1321 |
| Md5Suite.AlphabetDigest | tool/json-generator/web/jquery.md5.js:129-211 | the digest of "abcdefghijklmnopqrstuvwxyz" is the one in section A.5 of RFC 1321 |
| Lookup.Find | template/js/Chart.js:13732-13757 | the search ends and returns neighbouring items around the value, or the end of the table beyond which it lies |
| Lookup.Interpolate | template/js/Chart.js:13764-13777 | the value lies on the line through the two items |
| Lookup.OneValue | template/js/Chart.js:13764-13777 | which of two possible pairs is found does not matter |
| Lookup.RoundTrip | template/js/Chart.js:13764-13777 | on a table that rises in both, time to position and back is the identity, and so is the other way |
| Lookup.BuildTable | template/js/Chart.js:13696-13729 | for any items, the table holds those at which the rounded middle of the neighbours is another number, each with its share of the scale; the items are min, max and the timestamps between them, and for rising timestamps each k-th of these m is found at (k + 1) / (m + 1) if and only if none lies half a step before the middle of its neighbours |
| Lookup.TableSorted | template/js/Chart.js:13696-13729 | the table rises in time and in position |
| Lookup.FoundEvenly | template/js/Chart.js:13696-13777 | for rising timestamps, each k-th of the m strictly between min and max is found on the table at (k + 1) / (m + 1) if and only if none lies half a step before the middle of its neighbours |
| Lookup.InnerSelects | template/js/Chart.js:13705-13715 | the items are min, max and exactly the timestamps between them, in order and with repetitions |
| Lookup.ExactIff | template/js/Chart.js:13718-13726 | every item i is found at exactly i / (n - 1) if and only if none lies half a step before the middle of its neighbours |
| Lookup.HalfIsOff | template/js/Chart.js:13718-13726 | such an item is found elsewhere |
| Lookup.HalfExample | template/js/Chart.js:13718-13726 | the items 0, 2 and 3: the second is found at two thirds |
| Lookup.EvenIsExact | template/js/Chart.js:13718-13726 | even timestamps are always exact |
| Lookup.ItemsRise | template/js/Chart.js:13705-13715 | rising timestamps give rising items |
| Spline.Initial | template/js/Chart.js:5467-5503 | slopes, and first tangents that are the only slope at an end of a drawn run, half the sum of two slopes of one sign, and 0 at a change of sign |
| Spline.TangentAlong | template/js/Chart.js:5491-5501 | no first tangent goes against the segments it belongs to |
| Spline.TangentIsFirst | template/js/Chart.js:5491-5501 | the first tangent is the only slope at an end of a drawn run, half the sum of the slopes between two of one sign, and 0 at a change of sign |
| Spline.MirrorTangent | template/js/Chart.js:5491-5501 | reversing the points in x negates every first tangent |
| Spline.ParabolaTangent | template/js/Chart.js:5491-5501 | on a parabola at equal steps, between two slopes of one sign, it is the derivative |
| Spline.Adjusts | template/js/Chart.js:5519-5528 | scaling by 3 / sqrt brings both ratios onto the circle of radius 3, without a change of sign |
| Spline.StaysSettled | template/js/Chart.js:5505-5529 | shrinking a shared tangent later leaves the segment before it within the condition |
| Spline.Tangents | template/js/Chart.js:5462-5529 | after both loops every drawn segment with a slope has tangent ratios that are not negative with squares summing to at most 9, every flat one has zero tangents, tangents only shrink, and those that needed no adjustment stay |
| Spline.ControlPoints | template/js/Chart.js:5531-5551 | the control points of every drawn segment lie on its two tangents at a third of its width, and no other is set |
| Spline.WayRises | template/js/Chart.js:5463-5466 | a cubic whose end tangents are between 0 and three times its slope never goes back |
| Spline.DrawnMonotone | template/js/Chart.js:5463-5466 | the Bezier curve of a settled segment runs evenly in x, and in y it stays between the two values and never turns back |
| Spline.SplineCurveMonotone | template/js/Chart.js:5462-5553 | for any points, the three loops leave control points whose curve is monotone between any two neighbouring drawn points; where no drawn segment needs an adjustment they lie on the first tangents |

## Left out

- Sockets, TLS, threads, signals, processes and the Lua VM: foreign calls; reads are arbitrary pieces, clocks arbitrary
  times.
- Parser callbacks that fail, pause the parser or change it: every callback returns 0. `response_complete` of
  `src/wrk.c` sets the parser up again after each response, which here begins a new run.
- Non-strict mode of the parser, and the bytes after an upgrade, which `http_parser_execute` leaves to its caller.
- HttpParser.HttpParser.Execute: the header count is not cut to 32 bits, which one buffer of 4 GiB could make visible; on
  an error the header count is left open, the data of the mark that was open may be missing from the callbacks, as in
  the code, and the matcher state is compared only without one.
- CallGrammar.Connection: a Content-Length with an empty value is none, as in the code.
- Requests.GoesRequest: the names Connection, Proxy-Connection, Transfer-Encoding and Upgrade and the method CONNECT are
  not among those of a printed request; `Messages.GoesMessage` and `Messages.UpgradeExits` have them.
- Messages.GoesMessage: trailers have plain names, every request target is one that `parse_url_char` takes, and no
  response is known to answer a HEAD, because only a callback could say so.
- Sessions.GoesSession: the parser is one for requests or one for responses; `Tolerance.EitherFinds` leads a parser of
  either kind there.
- UrlGrammar.AcceptedIff: for `is_connect` of 0, as `src/script.c` calls it.
- Lengths.Decimal: Lua prints a length exactly below 10^14 only.
- Urls.ParseUrl: a failed parse leaves fields of which nothing is said; order and disjointness are stated for at most
  65535 bytes, beyond which offsets are cut to 16 bits; what follows the buffer is taken not to be a digit.
- Timers.PassIs: finalizers do not touch the timers, callbacks do not process events themselves, and delays are not
  negative; a callback is known by what it does, in any order, so its code and its data are not modelled.
- Buffers.Response: requires at least one header, because the loop of `script_response` takes strings in pairs.
- Recording.Quiescent: counters do not wrap around at 2^64.
- Stats.Stats.Percentile: exact arithmetic instead of `long double`.
- LatencyMap.Chart: `int` buckets do not overflow, and `digit_ceil` is exact only below 10^19, where the product still
  fits 64 bits.
- Pipes.SourceChain.Call: sources that answer with an error, and file sources and sinks.
- Md5.Md5: starts from bytes; `uTF8Encode` before it is not modelled.
- Lookup.Interpolate: exact arithmetic instead of doubles; timestamps are integers.
- Spline.SplineCurveMonotone: exact arithmetic with an exact square root; the canvas that draws the curve is left out.
- Mean, deviation and reports of `src/stats.c`, unit formatting, polling back ends, and all drawing code: they would add
  easy members only.
