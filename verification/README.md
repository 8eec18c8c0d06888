# Proofs about the parsers, hashes and buffers of the server library

This project models six self-contained parts of the repository and proves what they are for.

- **The incremental HTTP/1.x parser** (`ServerEngine/http_parser/http_parser.c`, built strict).
  `HttpMachine` is the parser as a machine that looks at one byte at a time; `HttpRun` is a run of
  it, with the callbacks kept as a trace. `HttpParser` is the object of the source: it reads pieces
  in bulk, skips with memchr, marks where data begins, re-executes without consuming, and counts
  header bytes in 32 bits. `HttpCalls` says what one call does, byte for byte, with the checks that
  memchr leaves out and the count of header bytes; the object is proved to do exactly that. On top
  of that: it is proved exactly when cutting the input changes nothing, message bodies are framed as
  announced, every assertion of the source holds, and well-formed messages, one after the other in
  any pieces, are read as exactly their parts, with a bound on the header bytes they count.
  `HttpMessages` says what a well-formed message is without reference to the machine.
- **The URL parser** of the same file: two passes that keep spans of the buffer, proved to be a
  partition of it.
- **The JSON library** (`ServerEngine/mjson/json.c`). `JsonLexer` and `JsonBuilder` are the
  resumable lexer and tree builder over values; `JsonParser`, `JsonPrinter` and `JsonFree` are the
  loops of the source over linked nodes, proved against recursive functions on trees. Fragments may
  be cut anywhere; printing and parsing are inverse; what the parser ignores is named exactly;
  freeing a subtree frees each of its nodes once and nothing else, and freeing a parsed document
  leaves none of its nodes.
- **SHA-1** (`ServerEngine/crypt/sha1.c`): the circular, renamed, rewritten form and the streaming
  context refine the definition of FIPS 180-4.
- **CRC** (`3rdParty/boost1_75_0/include/boost/crc.hpp`): the table-driven computer and the bit-wise
  one give the same checksum, which is a remainder of polynomial division.
- **The reference-counted buffer pool** (`Common/DataBuffer.h`) under every interleaving of its
  critical sections, with the history of the pool step by step, and **Base64** (`ServerEngine/crypt/base64_encoder.c`) with its decoder.

`dafny verify dfyconfig.toml` checks everything. Modules follow the source files; a module that
ends in `Theorems`, `Cuts`, `Delivery`, `ToEnd`, `Runs`, `RoundTrip`, `Reprint` or `Squeeze` holds
results about whole runs.

## Where the code differs from what one might expect

- Split invariance fails without a condition, in two ways. Header-value bytes inside the memchr path
  are not validated, so a byte that one cut accepts another cut reports (`HttpCuts.CutsDifferHere`).
  And a piece that ends inside a header name or value counts one byte more, so a cut of valid bytes
  may pass the header limit where one call does not (`HttpCuts.OverflowsHere`;
  `HttpCutCounts.CutCounts` is the count of every cut). `HttpCutCounts.SplitExactly` is the
  condition, on the bytes: when one call reads the whole input without error or upgrade exit, all
  cuts end with the same parser and callbacks, within the limit, if and only if lenient mode is on or
  every byte that stands in a header value is a valid one, and the header bytes stay within the
  limit when each byte counts twice after which the machine stays in the same name or value.
- A call with no bytes in the middle of a message returns 1, more than its length.
- The tables of token characters and hex digits list half of their 256 entries; a byte of 128 or
  more is no token character, but counts as the hex digit 0 in a chunk size
  (`HttpMessageReading.HighByteEndsChunks`).
- A first JSON fragment that is blank is refused although the whole may be a document
  (`JsonRun.BlankFirstFragment`). `JsonRun.SettledExactly` says that this is exactly the exception: any
  other call that does not go on settles the code of every longer call.
- A document may be followed by the beginning of a token, as in `{} t`, and a comma may stand before
  a closing `]`. `JsonSqueeze.DocumentIsPrinted` shows that nothing else is tolerated, besides
  blanks. A line end right after a number is not counted (`JsonLexer.LineEndAfterNumber`).
- On a text in which every backslash begins an escape, `json_unescape` runs past the end exactly
  when the run of high-surrogate escapes at the end is odd (`JsonUnescape.DecodesExactly`;
  `JsonUnescape.LoneSurrogate` is such a text). The second half of a pair is not checked.
- A single SHA-1 update of 2^29 octets or more may find a carry of the bit count that is not there,
  which makes the count 2^32 too large; it never misses one (`Sha1Stream.CarryOut`).
  `Sha1Stream.CountStaysExact` says exactly when, and `Sha1Stream.OneCallPadding` gives a size that
  `crypt_sha1` accepts and pads wrongly.

## Model

| member | source | states |
|---|---|---|
| `HttpCutCounts.SplitExactly` | ServerEngine/http_parser/http_parser.c:634-2091 | When one call reads the whole input without error or upgrade exit, all ways of cutting the input into non-empty pieces end with the same parser and the same callbacks (data callbacks of one kind joined) and stay within the header limit if and only if header values are not checked or every byte that stands in one is valid, and the header bytes stay within the limit when every byte counts twice behind which a name or value may go on |
| `HttpTheorems.AlikeExactly` | ServerEngine/http_parser/http_parser.c:634-2091 | The same with the header limit left aside: same parser and callbacks for all cuts if and only if header values are not checked or hold nothing bad |
| `HttpTheorems.CutShows` | ServerEngine/http_parser/http_parser.c:1506-1527 | A bad byte that the one call skipped is reported by the cut right before it |
| `HttpCuts.CutsDiffer` | ServerEngine/http_parser/http_parser.c:1506-1559 | For every request line, header and value of two bytes or more that end in a bad byte: one call reads all of it, the cut before that byte fails |
| `HttpCuts.CutsDifferHere` | ServerEngine/http_parser/http_parser.c:1506-1559 | One such request, spelled out |
| `HttpCuts.OverflowsWhenCut` | ServerEngine/http_parser/http_parser.c:1506-1559 | Every value without a bad byte that fits the limit when it is read in one call, but would not if each byte counted twice: the cut into single bytes passes the limit |
| `HttpCuts.OverflowsHere` | ServerEngine/http_parser/http_parser.c:1506-1559 | One such value, 50000 letters |
| `HttpCutCounts.CutCounts` | ServerEngine/http_parser/http_parser.c:154-162 | Exactly what a cut counts, at the end and at the greatest on the way: each header byte once, and once more each byte with a cut behind it and the name or value going on; back to nothing where the source sets the count back |
| `HttpCutCounts.CutCountsAtMost` | ServerEngine/http_parser/http_parser.c:154-162 | So a cut counts no less than one call, and at most one byte more for each piece, at the end and at the greatest |
| `HttpCutCounts.SplitInvariance` | ServerEngine/http_parser/http_parser.c:634-2091 | Two parsers in the same state, one fed the whole input, one its pieces: if the whole call ends without error or upgrade exit and nothing in a header value is bad, each of them reports overflow exactly if its bytes and cuts count past the limit, and otherwise the two end in the same state with the same callbacks |
| `HttpTheorems.ExecuteAll` | ServerEngine/http_parser/http_parser.c:634-2091 | Feeding pieces one call after the other does what the calls say: parser, callbacks and count; no error exactly if no call meets one and no count passes the limit; header overflow only if some count does, any other error the one the calls end with |
| `HttpDelivery.Deliver` | ServerEngine/http_parser/http_parser.c:634-2091 | A conversation of well-formed requests or responses, fed in any pieces, delivers exactly the callbacks of its messages in order and leaves the parser with what the last message said (version, method or status, flags, whether another message may follow), unless it ends with header overflow, which needs the header load of the conversation plus one for each piece to pass the limit; bodies do not count |
| `HttpHeaderCount.MessagesKept` | ServerEngine/http_parser/http_parser.c:154-162 | Over a conversation the count of header bytes never passes the greatest of: what was left over plus a head, one size line, the trailers; because it is set back at the end of the headers (line 1841) and between chunks (lines 2003 and 2049) |
| `HttpToEnd.DeliverToEnd` | ServerEngine/http_parser/http_parser.c:1836-1924 | A response that announces no length, fed in any pieces and then ended: its body is delivered as it comes and completed by the end of the connection; overflow only if its head, the old count and the pieces pass the limit |
| `HttpConversations.ReadMessages` | ServerEngine/http_parser/http_parser.c:634-2091 | Well-formed messages that keep the connection open are read one after the other, nothing of one ending up in another |
| `HttpMessageReading.ReadMessage` | ServerEngine/http_parser/http_parser.c:634-2091 | A well-formed message standing anywhere in the input is read as its parts: message begin, URL or reason, each header name and value, the announced length and coding, the body or each chunk with its size, the trailers, message complete; and the parser holds the decimal version and status, the method, and the flags that the headers mean |
| `HttpMessageReading.ReadHead` | ServerEngine/http_parser/http_parser.c:781-1773 | The first line and the header lines give their data callbacks, and the parser holds exactly what they say when the empty line is reached |
| `HttpMessageReading.ReadChunks` | ServerEngine/http_parser/http_parser.c:1934-2052 | Each chunk gives a header callback with the value of its size as the parser reads its digits, its bytes, and a completion callback |
| `HttpMessageReading.HighByteEndsChunks` | ServerEngine/http_parser/http_parser.c:224-240 | A byte of 128 or more where a size should stand is read as the size 0 and ends the chunks |
| `HttpMessageReading.ReadBody` | ServerEngine/http_parser/http_parser.c:1882-1932 | A body of the announced length gives its bytes and then message complete, at its last byte |
| `HttpHeaderReading.ReadHeaders` | ServerEngine/http_parser/http_parser.c:1248-1773 | Header lines in any number give name and value callbacks, and set the flags and the length as their names and values mean: keep-alive, close, upgrade, chunked, the decimal Content-Length |
| `HttpHeaderReading.HeaderSays` | ServerEngine/http_parser/http_parser.c:1442-1773 | For every well-formed header the value matcher ends with the flag and the length that the header means, in any letter case |
| `HttpReading.ReadRequestLine` | ServerEngine/http_parser/http_parser.c:954-1246 | Method, URL and version of a request line are read as written, for every method and every URL the URL machine accepts |
| `HttpReading.ReadStatusLine` | ServerEngine/http_parser/http_parser.c:758-953 | Version, status and reason of a status line are read as written |
| `HttpReading.MethodRead` | ServerEngine/http_parser/http_parser.c:954-1051 | A word and a space at the start of a request: the machine goes on to the URL with method m exactly when the word is the name of m |
| `HttpDelivery.NothingAfterTheLast` | ServerEngine/http_parser/http_parser.c:711-719 | After a message that does not keep the connection open the next byte other than a line end is reported as data on a closed connection, with all callbacks of the message delivered |
| `HttpDelivery.TwoFramingsRefused` | ServerEngine/http_parser/http_parser.c:1786-1792 | A head that announces both a Content-Length and chunked coding is refused at its last byte, before any body |
| `HttpDelivery.LeavesAfterHead` | ServerEngine/http_parser/http_parser.c:1796-1851 | A CONNECT request, or an upgrade request or response that announces no body, ends the call right behind its empty line, with `upgrade` set and the message complete |
| `HttpTheorems.BodyFraming` | ServerEngine/http_parser/http_parser.c:1836-2052 | In the callbacks of any reachable parser the body bytes between end of headers and message complete are exactly the declared length, or the sum of the chunk sizes, or none |
| `HttpTheorems.ChunkFraming` | ServerEngine/http_parser/http_parser.c:1934-2052 | The body bytes between a chunk header and its completion are exactly the announced size |
| `HttpTheorems.DeclaredLength` | ServerEngine/http_parser/http_parser.c:1442-1695 | The length reported at the end of the headers is the decimal value of the last Content-Length line |
| `HttpInvariant.AccumulatorExact` | ServerEngine/http_parser/http_parser.c:1565-1590 | The overflow guard rejects before the 64-bit accumulator can wrap or reach the all-ones sentinel, for lengths and for chunk sizes |
| `HttpInvariant.MicroKeeps` | ServerEngine/http_parser/http_parser.c:702-2059 | Every error-free step keeps the reachable-state invariant: chunk states have the chunked flag, body states a length neither 0 nor the sentinel, matcher states fit their parser states, and the callback audit is good |
| `HttpInvariant.RestKeeps` | ServerEngine/http_parser/http_parser.c:702-2091 | Every error-free run keeps that invariant |
| `HttpNames.NameStepRecognizes` | ServerEngine/http_parser/http_parser.c:1298-1407 | One character of the header-name matcher moves its state to what the name read so far is, in any letter case: a known name, a proper beginning of one, or none |
| `HttpTracking.AtMostOneMark` | ServerEngine/http_parser/http_parser.c:2061-2075 | At most one data mark is open at any byte boundary of a call, the assertion at the end of the function |
| `HttpParsing.HttpParser.constructor` | ServerEngine/http_parser/http_parser.c:2144-2153 | A new parser satisfies the invariant and starts in the state its type calls for |
| `HttpParsing.HttpParser.Execute` | ServerEngine/http_parser/http_parser.c:634-2091 | The bulk reader does exactly what the byte-wise description of the call does: same parser, same joined callbacks, same count of consumed bytes and of header bytes; it reports no error exactly if the description meets none and the greatest header count stays within the limit, header overflow only past the limit, and otherwise the same error at the same byte; a count below the length means an error or an upgrade; a call without bytes completes a body that runs to the end of the stream, or is an error in the middle of a message; the call terminates |
| `HttpParsing.HttpParser.ReadHeaderValue` | ServerEngine/http_parser/http_parser.c:1506-1695 | The header-value loop with its memchr path takes the same bytes as the machine |
| `HttpParsing.HttpParser.ReadHeaderField` | ServerEngine/http_parser/http_parser.c:1298-1425 | The header-name loop takes the same bytes as the machine |
| `HttpParsing.HttpParser.ReadBodyIdentity` | ServerEngine/http_parser/http_parser.c:1882-1917 | The bulk body read takes as much of the announced length as the piece holds |
| `HttpParsing.MemChr` | ServerEngine/http_parser/http_parser.c:1535-1558 | The first place of a byte inside the limit, or none |
| `HttpUrlTheorems.UrlPartition` | ServerEngine/http_parser/http_parser.c:2342-2444 | A URL that is parsed is partitioned: the fields are non-empty, inside the buffer, disjoint, in the order schema, userinfo, host, port, path, query, fragment, they hold only bytes allowed there, and every byte outside them is a delimiter |
| `HttpUrlTheorems.UrlPort` | ServerEngine/http_parser/http_parser.c:2413-2444 | The port is the decimal value of its digits, at most 65535, and 0 without a port; a schema needs a host; CONNECT has a host and a port and nothing else |
| `HttpUrlParsing.HttpParserUrl.ParseUrlInto` | ServerEngine/http_parser/http_parser.c:2342-2444 | The loop over the URL, the host pass and the port give the spans of the two-pass specification, or fail exactly when it does |
| `HttpUrlParsing.HttpParserUrl.ParseHostPart` | ServerEngine/http_parser/http_parser.c:2255-2335 | The loop over the authority gives the userinfo, host and port spans, or fails exactly when the host machine does |
| `HttpUrl.FirstSpans` | ServerEngine/http_parser/http_parser.c:2355-2398 | The spans kept by the first loop are exactly the runs of bytes whose state belongs to a field |
| `HttpUrl.SecondSpans` | ServerEngine/http_parser/http_parser.c:2255-2320 | The spans kept by the host loop are exactly the runs of bytes of each part of the authority |
| `JsonRoundTrip.PrintThenParse` | ServerEngine/mjson/json.c:570-796 | For every object tree of valid labels, strings, numbers and literals: printing succeeds and parsing what was printed gives the equal tree |
| `JsonRoundTrip.ParseThenPrint` | ServerEngine/mjson/json.c:2771-2801 | Whatever the parser accepts is such a tree, so that it can be printed and parsed again to the same tree |
| `JsonSqueeze.DocumentIsPrinted` | ServerEngine/mjson/json.c:2135-2801 | An accepted text without the blanks between tokens, and without a comma right before a closing bracket, is exactly the print of the tree it was parsed to, followed by whatever token had begun after the end; it is the print alone exactly when none had |
| `JsonSqueeze.BlanksIgnored` | ServerEngine/mjson/json.c:1388-1402 | Blanks put between two tokens change neither failure nor document, and the line count by the line ends among them |
| `JsonSqueeze.RestSqueezes` | ServerEngine/mjson/json.c:1372-2767 | Over any run that does not fail, the partial tree, the parser state and the pending token stand for exactly the bytes read |
| `JsonRun.FragmentInvariance` | ServerEngine/mjson/json.c:2135-2767 | After a first fragment that went on, the second gives the same tree, lexer state, line and code as one call on both, for every cut |
| `JsonRun.FailureInvariance` | ServerEngine/mjson/json.c:2135-2767 | The same for tree and lexer when the first call did not go on; and unless that was a blank start, its code is the code of every longer call |
| `JsonRun.SettledExactly` | ServerEngine/mjson/json.c:2135-2767 | A call that does not go on settles the code of every longer call if and only if it was no blank start |
| `JsonRun.BlankFirstFragment` | ServerEngine/mjson/json.c:2148-2165 | The exception at an input: a blank first fragment is refused although blank and object together are a document |
| `JsonRun.PiecesInvariance` | ServerEngine/mjson/json.c:2135-2767 | Any number of fragments builds what their concatenation builds |
| `JsonInvariant.RestKeeps` | ServerEngine/mjson/json.c:2135-2767 | Over any fragment the state number fixes the kind of the cursor node and the path above it, the partial tree stays well formed, every finished label has one value, and the only failures are a malformed document and an illegal character |
| `JsonInvariant.WaitingIsDone` | ServerEngine/mjson/json.c:2771-2801 | A text accepted as a whole leaves exactly the root open |
| `JsonGrammar.NumbersCollected` | ServerEngine/mjson/json.c:1818-2130 | The number states collect exactly the numbers of section 6 of RFC 8259 |
| `JsonGrammar.LexedTextOk` | ServerEngine/mjson/json.c:1475-2130 | A string token has a string body of section 7 of RFC 8259, a number token a number of section 6 |
| `JsonParsing.ParsingInfo.RunLexer` | ServerEngine/mjson/json.c:1372-2132 | The lexer loop over a fragment, with its growable text, ends as the byte-wise lexer does |
| `JsonParsing.ParsingInfo.ParseFragment` | ServerEngine/mjson/json.c:2135-2767 | The parser over linked nodes does what the builder over values does and returns its code; the nodes stay linked, no sanity check fails and the bad-tree codes are never returned |
| `JsonParsing.ParsingInfo.AddLeaf` | ServerEngine/mjson/json.c:2386-2673 | A leaf is inserted below the cursor, and a label is finished with it |
| `JsonParsing.ParsingInfo.CloseContainer` | ServerEngine/mjson/json.c:2267-2324 | A closing bracket moves the cursor to the array, or to the object of the label, above it |
| `JsonParsing.ParseDocument` | ServerEngine/mjson/json.c:2771-2801 | Succeeds exactly on documents; then the nodes made are all new, linked, stand for the parsed tree, and only the root is without a parent |
| `JsonLexer.LineEndAfterNumber` | ServerEngine/mjson/json.c:1852-1896 | A line end right behind a number ends it without being counted |
| `JsonHeap.InsertChild` | ServerEngine/mjson/json.c:454-533 | A child the kinds allow is appended to the list of its parent and all lists stay linked; otherwise nothing changes and the bad-tree code is returned |
| `JsonHeap.InsertedLinked` | ServerEngine/mjson/json.c:518-531 | The pointer changes of an insertion keep every list of the heap linked |
| `JsonPrinter.TreeToString` | ServerEngine/mjson/json.c:570-796 | The walk with goto over parent, child and sibling pointers writes exactly the text of the tree, or returns the bad-tree code exactly when some label has no value |
| `JsonFree.FreeValue` | ServerEngine/mjson/json.c:424-451 | Terminates, frees the nodes of the subtree in post-order, each once, and leaves all other nodes linked, with just this node gone from the list of its parent |
| `JsonFree.InternFree` | ServerEngine/mjson/json.c:359-421 | A leaf leaves its list, whether first, last, middle or only child, and all other lists stay linked |
| `JsonFree.ChildrenFirst` | ServerEngine/mjson/json.c:424-451 | Every child of a freed node is freed before it |
| `JsonFree.OnlySubtree` | ServerEngine/mjson/json.c:424-451 | No node outside the subtree is freed: any set that holds the node and the children of its members holds all nodes freed |
| `JsonReprint.PrintAndParse` | ServerEngine/mjson/json.c:570-796 | A root object in the heap, printed and parsed again, gives a new heap that stands for the equal tree |
| `JsonReprint.ParseAndPrint` | ServerEngine/mjson/json.c:2771-2801 | Any text is accepted exactly if it is a document; then what is returned is the print of its tree, and parses to the same tree |
| `JsonReprint.ParseAndFree` | ServerEngine/mjson/json.c:424-451 | A parsed document can be freed: as many nodes as its tree has, each once, and they are all the nodes that the parser made |
| `JsonEscape.JsonEscape` | ServerEngine/mjson/json.c:1136-1199 | The loop writes the escape of every byte |
| `JsonEscape.EscapedIsBody` | ServerEngine/mjson/json.c:1136-1199 | The escape of any bytes may stand between quotes |
| `JsonEscape.QuotedEscapeLexes` | ServerEngine/mjson/json.c:1475-1673 | The quoted escape of any bytes is one string token whose text is that escape |
| `JsonUnescape.JsonUnescape` | ServerEngine/mjson/json.c:1202-1355 | The loop in place computes the decoded bytes, and its write cursor never passes its read cursor, on every text in which each backslash begins an escape and which does not end in an unpaired high surrogate |
| `JsonUnescape.UnescapeEscaped` | ServerEngine/mjson/json.c:1136-1355 | Unescaping the escape of any bytes gives the bytes back |
| `JsonUnescape.DecodesExactly` | ServerEngine/mjson/json.c:1232-1298 | Decoding stays inside the text exactly when the run of high-surrogate escapes at its end has even length |
| `JsonUnescape.LoneSurrogate` | ServerEngine/mjson/json.c:1291-1303 | A text behind whose end the loop reads |
| `JsonUnescape.Utf8Keeps` | ServerEngine/mjson/json.c:1232-1320 | The bytes written for a code point are well-formed UTF-8, and the code point can be read back from them |
| `JsonUnescape.PairInverts` | ServerEngine/mjson/json.c:1291-1318 | The two surrogates of every code point above 0xFFFF are decoded to its UTF-8 |
| `JsonUnescape.PairIsCodePoint` | ServerEngine/mjson/json.c:1291-1318 | A high and a low surrogate are the surrogates of the code point they are decoded to, which is in range |
| `RcStrings.RcString.CatCs` | ServerEngine/mjson/json.c:121-137 | Appends a text, growing the buffer when it is too small |
| `RcStrings.RcString.CatC` | ServerEngine/mjson/json.c:139-153 | Appends a byte, growing the buffer when it is full |
| `RcStrings.RcString.Unwrap` | ServerEngine/mjson/json.c:156-171 | Hands out exactly the contents |
| `Sha1Transform.Transform` | ServerEngine/crypt/sha1.c:121-171 | For every state and block the sixteen-word, renamed-register form is the 80-word compression of section 6.1.2 of FIPS 180-4 |
| `Sha1Transform.R0` | ServerEngine/crypt/sha1.c:113-114 | A round of the first kind in the circular schedule is a round of the standard with renamed registers |
| `Sha1Transform.R3` | ServerEngine/crypt/sha1.c:113-117 | The same for the third kind, with its rewritten majority |
| `Sha1Transform.WindowNext` | ServerEngine/crypt/sha1.c:110-111 | The circular word at i & 15 is word i of the message schedule, as section 6.1.3 of FIPS 180-4 says |
| `Sha1Transform.ChooseRewritten` | ServerEngine/crypt/sha1.c:113-115 | The rewritten choice formula is the one of the standard |
| `Sha1Transform.MajorityRewritten` | ServerEngine/crypt/sha1.c:117-117 | The rewritten majority formula is the one of the standard |
| `Sha1Transform.SwapIsBigEndian` | ServerEngine/crypt/sha1.c:105-109 | The two rotations make big-endian words of little-endian ones |
| `Sha1Stream.Context.Update` | ServerEngine/crypt/sha1.c:187-211 | The context stands for the old message followed by the new octets, in state, waiting octets and count; the count stays exact exactly when the comparison finds no carry that is not there |
| `Sha1Stream.CarryOut` | ServerEngine/crypt/sha1.c:198-200 | The comparison never misses a carry of the low word, and finds a false one exactly in the cases that the condition shuts out |
| `Sha1Stream.Context.Final` | ServerEngine/crypt/sha1.c:216-242 | The digest is the standard digest of the message, with padding and length of section 5.1.1 of FIPS 180-4 while the count is exact, and everything is wiped |
| `Sha1Stream.Context.AddZeros` | ServerEngine/crypt/sha1.c:227-229 | The padding loop terminates with exactly the zeros that leave room for the length |
| `Sha1Stream.CountIsLengthField` | ServerEngine/crypt/sha1.c:222-225 | The eight saved octets are the big-endian 64-bit count |
| `Sha1Stream.CountStaysExact` | ServerEngine/crypt/sha1.c:198-200 | An update keeps an exact count exact if and only if the comparison agrees with the carry of the low word; for updates below 2^29 octets it always does |
| `Sha1Stream.ShortIsCarried` | ServerEngine/crypt/sha1.c:198-200 | For an update below 2^29 octets the comparison agrees with the carry |
| `Sha1Stream.HashPieces` | ServerEngine/crypt/sha1.c:187-242 | Any message in any pieces, each below 2^29 octets, gives the standard digest of the whole |
| `Sha1Stream.CryptSha1` | ServerEngine/crypt/sha1.c:245-255 | One call gives the digest with the length field that the count then has, which is the standard digest if the count is exact |
| `Sha1Stream.OneCallPadding` | ServerEngine/crypt/sha1.c:245-255 | Exactly when a single call has the right length field, and a size for which it has not |
| `CrcDivision.DivideMany` | 3rdParty/boost1_75_0/include/boost/crc.hpp:548-576 | Up to a register of bits at once: shift, and add what those bits mixed with the top of the register make from zero, the identity behind the table |
| `CrcDivision.DivideIsLongDivision` | 3rdParty/boost1_75_0/include/boost/crc.hpp:548-576 | The altered division is long division of the message with as many zeros appended as the register has bits |
| `CrcDivision.OwnRemainder` | 3rdParty/boost1_75_0/include/boost/crc.hpp:548-576 | A message followed by its own remainder leaves zero |
| `Crc.ReflectUnsigned` | 3rdParty/boost1_75_0/include/boost/crc.hpp:383-397 | Reverses the low bits and keeps the others |
| `Crc.ModuloWordUpdate` | 3rdParty/boost1_75_0/include/boost/crc.hpp:548-576 | The loop divides by the bits of the word, the highest or the lowest first |
| `Crc.MakeTable` | 3rdParty/boost1_75_0/include/boost/crc.hpp:966-985 | The entry of every byte is what the byte makes of a zero remainder, in the orientation of the table |
| `Crc.DirectByte` | 3rdParty/boost1_75_0/include/boost/crc.hpp:1141-1159 | A byte by table equals its eight bits by division |
| `Crc.ReflectedByte` | 3rdParty/boost1_75_0/include/boost/crc.hpp:1234-1253 | The same on reflected registers |
| `Crc.DirectUpdate` | 3rdParty/boost1_75_0/include/boost/crc.hpp:1141-1159 | The table loop divides by all bits of the block |
| `Crc.ReflectedUpdate` | 3rdParty/boost1_75_0/include/boost/crc.hpp:1234-1253 | The reflected table loop does, up to reflection of the remainder |
| `CrcComputers.CrcBasic.ProcessBlock` | 3rdParty/boost1_75_0/include/boost/crc.hpp:1828-1838 | The bit-wise computer divides by all bits of the block |
| `CrcComputers.CrcOptimal.ProcessBytes` | 3rdParty/boost1_75_0/include/boost/crc.hpp:2092-2100 | The table-driven computer does, up to reflection |
| `CrcComputers.CrcOptimal.GetChecksum` | 3rdParty/boost1_75_0/include/boost/crc.hpp:2108-2114 | Final xor, and a reflection of the output exactly when one of the two flags is set |
| `CrcComputers.BothChecksums` | 3rdParty/boost1_75_0/include/boost/crc.hpp:145-312 | For every width from 8 bits, polynomial, initial value, final xor and reflection flags, and every list of blocks, both computers give the one checksum of all bytes |
| `CrcComputers.PlainChecksum` | 3rdParty/boost1_75_0/include/boost/crc.hpp:1874-1897 | Without masks and reflection the checksum is the remainder of the message times x^n by the polynomial |
| `BufferPool.Manager.AddRef` | Common/DataBuffer.h:34-40 | One more reference to a buffer in use, and every count still equals its outstanding references |
| `BufferPool.Manager.AllocDataBuff` | Common/DataBuffer.h:119-155 | The first free buffer, or a new one when there is none, becomes the head of the used list with one reference; all else is kept |
| `BufferPool.Manager.CheckRelease` | Common/DataBuffer.h:158-168 | The test outside the mutex never fails for a thread that owns a reference, whatever other threads did |
| `BufferPool.Manager.FinishRelease` | Common/DataBuffer.h:169-214 | One reference less; with the last one the buffer leaves the used list, the others in their order, for the head of the free list, or is deleted when pooling is off; lists and counts stay right |
| `BufferPool.Manager.SetEnablePool` | Common/DataBuffer.h:237-240 | Switching pooling keeps the pool valid at any time |
| `BufferPool.Manager.ReleaseAll` | Common/DataBuffer.h:216-235 | Every buffer that is not deleted yet is deleted, each once |
| `PoolList.PushHead` | Common/DataBuffer.h:195-206 | A node pushed at the head keeps both lists well linked |
| `PoolList.Unlink` | Common/DataBuffer.h:176-193 | A node taken out anywhere keeps both lists well linked |
| `PoolRuns.Take` | Common/DataBuffer.h:34-235 | Each step changes references, used, free, deleted and made buffers exactly as its kind says, skipped when its thread cannot take it, and keeps the pool linked and every count equal to its outstanding references |
| `PoolRuns.Run` | Common/DataBuffer.h:34-235 | Every schedule of steps of any threads is carried out step by step from an empty pool: the pools between the steps form a history of it, and the last one is the pool there is |
| `PoolRuns.HistoryKeeps` | Common/DataBuffer.h:119-214 | At every point of every history each buffer made is used, free or deleted, only one of these and once, and the used ones are exactly those with a reference |
| `PoolRuns.NeverFreeWhileReferenced` | Common/DataBuffer.h:156-214 | At every point of every history a referenced buffer is in use, neither free nor deleted |
| `PoolRuns.HighWater` | Common/DataBuffer.h:119-214 | With pooling never switched off, the buffers made in a history are as many as had a reference at once |
| `PoolRuns.InUse` | Common/DataBuffer.h:156-214 | In the heap a referenced buffer is in use, neither free nor deleted, and its count is the number of its references |
| `PoolRuns.RunAndReleaseAll` | Common/DataBuffer.h:119-235 | After any schedule and the end of the pool every buffer ever made has been deleted exactly once; with pooling never switched off they are as many as were in use at once |
| `Base64.Base64Encode` | ServerEngine/crypt/base64_encoder.c:14-60 | The output is the encoding, of length four letters for every three octets begun, inside the chosen buffer, ended by NUL, and decodes to the input |
| `Base64.DecodesBack` | ServerEngine/crypt/base64_encoder.c:31-56 | The decoder of section 4 of RFC 4648 recovers every input |
| `Base64.EncodesBack` | ServerEngine/crypt/base64_encoder.c:31-56 | The decoder accepts nothing but encodings |
| `Base64.Injective` | ServerEngine/crypt/base64_encoder.c:31-56 | Different inputs have different encodings |

## Left out

- HTTP callbacks append to a trace and do not fail, pause or change the parser; only the answer of `on_headers_complete` (0, 1 or 2) is kept. Pausing, the non-strict build and a failing callback are not modelled.
- HttpParsing.HttpParser.Execute: says nothing about the exact events for pieces of 2^32 - 81920 bytes or more, because there the 32-bit header counter wraps and memchr may stop at its limit; the invariant, termination and the bounds on the result hold for every length. Where a call meets both an error and the header limit, which of the two is reported is not said.
- HttpCutCounts.SplitInvariance: does not compare `nread`, which counts one byte more whenever a piece ends inside a header name or value.
- HttpCutCounts.SplitExactly: says nothing about input that one call refuses or leaves early for an upgrade.
- HttpTheorems.ExecuteAll: takes pieces that are not empty, because a call without bytes means the end of the stream, and shorter than 2^32 - 81920 bytes; `HttpToEnd.DeliverToEnd` has the last call without bytes.
- HttpDelivery.Deliver: messages in the forms that `ReadMessage` and `ReadHeaders` take.
- HttpToEnd.DeliverToEnd: heads in the forms that `ReadHead` takes.
- HttpMessageReading.ReadMessage: reads messages with CRLF line ends, no folded lines, and an announced body or none; bare LF and folding are part of the machine and of all results about runs, but not of this description of messages. Parsers of the kind that accepts both requests and responses are covered by the results about runs only.
- HttpMessageReading.ReadHead: the same line forms.
- HttpHeaderReading.ReadHeaders: the same line forms; blanks may stand between a colon and its value.
- HttpHeaderReading.HeaderSays: takes `Connection` values of a single known word; lists of connection options are part of the machine only.
- HttpReading.ReadRequestLine: one space on each side of the URL, and a version; requests of HTTP/0.9 are part of the machine only.
- HttpReading.ReadStatusLine: one space on each side of the status.
- Each single-byte case of the HTTP `switch` is a function of the machine; the loops, marks, counters and re-execution around them are methods of the class.
- HTTP header and URL text is handed over in the trace as bytes; `http_method_str`, the error-name tables and `http_body_is_final` are not modelled.
- HttpUrlParsing.HttpParserUrl.ParseUrlInto: takes buffers of at most 65535 bytes, because the offsets of the source are 16 bits wide; `strtoul` is evaluated on the port's digits inside the buffer, and fields of a URL that is refused are not described.
- JSON: memory exhaustion and messages to stderr are not modelled; a node without a text has the empty text; `json_saxy_parse`, `json_strip_white_spaces`, `json_format_string`, the stream functions, `json_find_first_label`, `json_insert_pair_into_object` and the accessors of `json_extends.c` are left out.
- JsonHeap.InsertChild: takes a child that has no parent, which is what the parser gives it; the source does not check this, and would leave the child in two lists.
- JsonUnescape.JsonUnescape: takes texts in which every backslash begins an escape of section 7 of RFC 8259; on others the source stops at an assertion, reads behind its text, or converts what digits there are. An unpaired high surrogate at the end is excluded because the source reads behind its text.
- JsonFree.FreeValue: freed nodes are taken out of the abstract child map and listed; that the caller's pointer is set to NULL is not modelled.
- SHA-1 is modelled for little-endian machines; sizes are 64-bit `size_t` values, which the comparison of the count depends on, and updates are below 2^63 octets. With a 32-bit `size_t` the comparison is another one.
- CRC: the width is the width of the register and at least 8, table units are bytes, registers are sequences of bits; augmented CRCs, sub-byte forms and the templates that choose among forms are left out, and the table of reflected bytes is computed by `ReflectUnsigned`.
- BufferPool.Manager.AddRef: requires a count below the greatest 32-bit value; overflow of a signed reference count is not modelled.
- BufferPool.Manager.ReleaseAll: deletion is a list of the buffers deleted; that their memory is gone is not modelled.
- The pool's steps are atomic: the read outside the mutex, the section under it, and `SetEnablePool`. Memory ordering and the data race on the unlocked read are not modelled; deleted buffers are listed instead of freed. The size classes of `Common/DataBuffer.cpp` are left out.
- Base64.Base64Encode: returns a new buffer of the size chosen; that small results share one static buffer between calls is not modelled.
- Network, dispatch, configuration and generated code add no hard properties and are left out.
