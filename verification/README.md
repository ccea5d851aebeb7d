# Models of the vendored data structures, parsers and code generator

The server runs on a few vendored C libraries. This project models their
algorithms in Dafny, in the form they have in C, and proves what they promise.

- `rb_shape`, `rb_tree`: the red-black tree of `tree.h`. Nodes are objects whose
  links and colours are overwritten in place; a ghost tree and a zipper say what
  the links mean.
- `splay`: the top-down splay tree of the same header.
- `heap_shape`, `heap`: the pointer-based binary heap behind the timers.
- `threadpool`: the worker pool as a transition system over the shared queue, the
  workers, the loops and a history of what callers see. A step is one critical
  section or one callback. `threadpool_progress`: what the pool and the loops
  bring to an end, and in which order.
- `http_machine`, `http_shape`: every state of the HTTP parser, and what a branch
  of its switch may do. `http_stream`: the run of the parser, byte by byte, as a
  reference. `http_marks`, `http_parser`: `http_parser_execute` over buffers, with
  marks and inner loops, proved against the reference. `http_pieces`: cutting the
  input. `http_length`, `http_ledger`, `http_announce`: the length fields and the
  bodies.
- `http_message`: HTTP messages written from their parts, what their headers mean
  and what the callbacks should tell, without the parser. `http_segments`,
  `http_line`, `http_target`, `http_first_line`, `http_fields`, `http_values`,
  `http_options`, `http_headers`, `http_body`, `http_whole`: the parser reports
  every such message as it was written.
- `http_url`: the URL parser. `http_url_parts`: URLs written from their parts.
- `lua_vm`, `lua_gen`, `lua_exec`: a machine for the instructions concerned, the
  code generator on values, and what patching jumps does to a run. `lua_correct`,
  `lua_cond`, `lua_value`, `lua_compile`, `lua_bound`, `lua_block`: the compiled
  code means what the source says. `lua_limits`: what a function needs, read off
  its syntax, and when it does not compile. `lua_lists`, `lua_code`,
  `lua_operators`, `lua_parser`: the generator as it is written, with jump lists
  threaded through the instructions, proved against the one on values.
- `json_text`: the growable buffer, the escaper and the unescaper. `json_lexer`,
  `json_value`: the lexer, the printed text and the parser's machine on values.
  `json_grammar`: the texts of RFC 8259 and the liberties that the parser takes.
  `json_tokens`, `json_steps`, `json_accept`, `json_roundtrip`: the machine accepts
  exactly these texts, the printed ones among them. `json_tree`, `json_insert`,
  `json_builder`, `json_parser`: nodes linked by pointers, the walk that prints
  them, `json_insert_child`, and the parser that builds them.
- `sha1`: the streaming hash against FIPS 180-4.
- `inet`: the address formatters and parsers.

## What the proofs show about the code

- SHA-1 counts a message right exactly if every single piece is below 2^29 bytes
  or the low words carry on their own: `count[1]` gets `len >> 29` on top of a
  carry test on the shifted length (`Sha1.CountExact`). One piece of 2^29 bytes is
  counted twice (`Sha1.LongPieceMiscounted`).
- The callbacks of an HTTP input that ends in an error depend on how it was cut:
  `goto error` drops the item whose mark is set. They agree for all cuts exactly
  if the state that refuses the byte holds no item
  (`HttpPieces.CutsMatterWhenHolding`, `HttpPieces.QuietFailure`); `GET /` and a
  tab is an input for which they do not (`HttpPieces.TabInUrl`). Everything else
  the parser reports is the same for all cuts.
- A header value is checked for control characters only until the parser has
  lost interest in it; after that it looks for CR and LF alone. The run calls such
  a byte `Unspecified`, and results about runs that meet one are not claimed.
- A `Content-Length` may hold spaces among its digits, and the conservative
  overflow test refuses the six largest 64-bit values, not only those that
  overflow (`HttpLength.ContentLengthExact`).
- The parser reads a body that the headers of a 1xx, 204 or 304 response announce;
  section 3.3.3 of RFC 7230 gives such a response none. Unless the protocol
  changes, this is the only disagreement about which body a message has
  (`HttpMessage.RfcAgreement`).
- Connection options: the one after an option that breaks off inside one of the
  three names, such as `clos,`, is missed (`HttpMessage.StubHides`), and after a
  later option that begins with `_` no option counts any more. `HttpMessage.EarAt`
  is the exact rule. Of transfer codings only `chunked` alone is known.
- JSON: `{"a":[true,]}` and `{}tru` are accepted
  (`JsonAccept.TrailingCommaAccepted`, `JsonAccept.UnfinishedAccepted`). Besides
  the objects of RFC 8259 the parser accepts exactly those with a comma at the end
  of a non-empty array and those followed by a token that has only begun
  (`JsonAccept.AcceptedExactly`).
- In `inet_ntop6` the test for an embedded IPv4 address after a run of seven zero
  words never decides anything: the run covers the word it is asked about.

## Model

| member | source | states |
|---|---|---|
| RBTree.Head.Insert | 3rd/libuv/include/tree.h:597-626 | an equal element is returned and nothing changes; otherwise no element was equal and the set grows by exactly the new node; search order, parent links, colour rule, black heights and black root hold again (Valid) |
| RBTree.Head.InsertColor | 3rd/libuv/include/tree.h:407-449 | from a tree whose only fault is a red node under a red parent, the fix-up loop ends with a red-black tree of the same in-order sequence |
| RBTree.Head.Remove | 3rd/libuv/include/tree.h:529-595 | the node set becomes the old one without the node, and all five invariants hold again |
| RBTree.Head.RemoveColor | 3rd/libuv/include/tree.h:451-527 | from a tree one black node short at one place, the fix-up loop ends with a red-black tree of the same in-order sequence |
| RBTree.Head.Search | 3rd/libuv/include/tree.h:604-614 | finds an equal node, or the one empty place at which the key keeps the order, with the last comparison pointing to it |
| RBTree.Head.RotateLeft | 3rd/libuv/include/tree.h:342-360 | the pivot takes the place of the node, links and root included, and no other node moves |
| RBShape.HeightBound | 3rd/libuv/include/tree.h:407-595 | a red-black tree of n nodes is at most 2 log2 (n + 1) high; Insert and Remove keep every tree red-black |
| RBShape.RedBlackPlug | 3rd/libuv/include/tree.h:407-595 | a tree with a hole filled is red-black exactly if filling and surroundings are and their colours and black heights meet: the invariant that the loops carry upwards |
| Splay.Head.SplayTo | 3rd/libuv/include/tree.h:209-243 | the in-order sequence stays, and the root becomes the matching node or an in-order neighbour of the key |
| Splay.Head.Insert | 3rd/libuv/include/tree.h:163-186 | set insertion: an equal node is returned, or the set grows by exactly the new node |
| Splay.Head.Remove | 3rd/libuv/include/tree.h:188-207 | set removal: the node equal to the key leaves, every other one stays; the argument is returned |
| Splay.Head.Find | 3rd/libuv/include/tree.h:127-137 | finds a node with the key exactly if there is one, and keeps the sequence |
| TimerHeap.Heap.Insert | 3rd/libuv/src/heap-inl.h:106-148 | the tree stays complete with one node more, in heap order, and its set grows by exactly the new node |
| TimerHeap.PathTo | 3rd/libuv/src/heap-inl.h:120-124 | the computed bit string leads from the root to level-order slot m, for every m below 2^32 |
| TimerHeap.Heap.Remove | 3rd/libuv/src/heap-inl.h:150-237 | removing any member leaves a complete tree of one node less, in heap order, with exactly the other nodes |
| TimerHeap.Heap.SwapNodes | 3rd/libuv/src/heap-inl.h:72-103 | a node and its parent change places, with all links around them |
| TimerHeap.Heap.Dequeue | 3rd/libuv/src/heap-inl.h:239-241 | what leaves is a least node |
| TimerHeap.Heap.MinIsLeast | 3rd/libuv/src/heap-inl.h:67-69 | heap_min is a least node of the whole heap, and nelts is the number of nodes |
| ThreadPool.RunInv | 3rd/libuv/src/threadpool.c:64-238 | the invariant of queue, workers, loops and history holds in every state of every run |
| ThreadPool.ExactlyOnePlace | 3rd/libuv/src/threadpool.c:64-238 | an item in flight is in exactly one of the shared queue, a worker's hands, the canceller's hands, the loop's queue and the drained queue; any other item is nowhere |
| ThreadPool.LifeCycle | 3rd/libuv/src/threadpool.c:64-238 | every history of a run obeys the life cycle of every item: submit, then run or cancel, then done |
| ThreadPool.DoneMeaning | 3rd/libuv/src/threadpool.c:192-238 | done is called with UV_ECANCELED exactly if a cancel has returned 0 since the submission, and exactly if the work function has not run; it runs at most once |
| ThreadPool.DoneCounts | 3rd/libuv/src/threadpool.c:180-238 | done is called once per submission, but for a last one that is still in flight |
| ThreadPool.RefusalIsFinal | 3rd/libuv/src/threadpool.c:192-215 | after a cancel that is refused the item stays committed until its done callback |
| ThreadPool.NeverAborts | 3rd/libuv/src/threadpool.c:56-100 | a worker only ever calls a real work function, never uv__cancelled |
| ThreadPool.NoLostWakeup | 3rd/libuv/src/threadpool.c:64-113 | while the queue holds something and a worker lives, some live worker is not blocked and can take its next step |
| ThreadPool.CleanupJoins | 3rd/libuv/src/threadpool.c:64-140 | once the exit message is queued, under every schedule and with spurious wake-ups, the workers take a bounded number of steps and all of them leave |
| ThreadPoolProgress.TakenInOrder | 3rd/libuv/src/threadpool.c:64-113 | what is posted while an entry waits is taken only after that entry was taken or cancelled, the exit message included |
| ThreadPoolProgress.LoopDelivers | 3rd/libuv/src/threadpool.c:218-238 | a loop left to itself takes a bounded number of steps, and when it can take none, done has been called once for every item that was due, in queue order, with its status |
| ThreadPoolProgress.EverySubmissionIsDone | 3rd/libuv/src/threadpool.c:56-238 | from every reachable state before the exit message, under every schedule, the pool comes to rest in a bounded number of steps, and then done has been called once per submission |
| ThreadPoolProgress.SubmitPossible | 3rd/libuv/src/threadpool.c:180-189 | an idle item can always be submitted |
| ThreadPoolProgress.CancelMeaning | 3rd/libuv/src/threadpool.c:192-215 | a cancel is always possible, and returns 0 exactly if no worker has taken the item or a cancel returned 0 before |
| HttpParser.Stream.Execute | 3rd/http_parser/http_parser.c:634-2091 | a call does what the reference run does: same parser, same number of bytes, same error, same callbacks once joined; a failing call loses the item in hand exactly if the buffer holds some of it; the header limit is reported only past 80 KB; the asserts on marks, flags, lengths and nread hold |
| HttpParser.Stream.ReadValue | 3rd/http_parser/http_parser.c:1506-1695 | the loop over a header value, with its jump to the next CR or LF and its own copy of the header state, does what the run does byte by byte |
| HttpParser.Stream.ReadIdentity | 3rd/http_parser/http_parser.c:1882-1917 | taking min(content_length, rest) bytes at once does what the run does byte by byte, and the assert on content_length holds |
| HttpParser.Stream.Switch | 3rd/http_parser/http_parser.c:705-2059 | re-executing the switch until a state takes the byte does what the run does with it |
| HttpPieces.FedIsRun | 3rd/http_parser/http_parser.c:634-2091 | any number of calls on pieces of an input do what one run over the whole input does |
| HttpPieces.SameForAllCuts | 3rd/http_parser/http_parser.c:634-2091 | two cuts of one input give the same state, flags, content_length, method and error, and, unless it ends in an error, the same joined callbacks |
| HttpPieces.CutsMatterWhenHolding | 3rd/http_parser/http_parser.c:2064-2090 | of an input that is refused, the whole and the cut before the refused byte make the same callbacks exactly if the refusing state holds no item |
| HttpPieces.QuietFailure | 3rd/http_parser/http_parser.c:2064-2090 | if the refusing state holds no item, every cut makes all the callbacks of the run |
| HttpPieces.TabInUrl | 3rd/http_parser/http_parser.c:487-495 | `GET /` and a tab is refused inside of the URL item |
| HttpLength.ContentLengthExact | 3rd/http_parser/http_parser.c:1466-1590 | the digits are accepted exactly up to 18446744073709551609, and content_length is then their value, below 2^64 - 1 |
| HttpLength.ChunkSizeExact | 3rd/http_parser/http_parser.c:1934-1985 | the hexadecimal digits are accepted exactly up to 18446744073709551599, and content_length is then their value |
| HttpAnnounce.ContentLengthAnnounced | 3rd/http_parser/http_parser.c:1466-1834 | after a Content-Length, whatever headers follow, on_headers_complete finds the number that was spelled |
| HttpAnnounce.ChunkSizeAnnounced | 3rd/http_parser/http_parser.c:1934-2013 | on_chunk_header finds the number that was spelled, whatever extension follows it |
| HttpLedger.BodiesAreExact | 3rd/http_parser/http_parser.c:1836-2052 | in every run, body data comes only after an announcement, is as long as announced when the next callback comes, and content_length is what is left of it |
| HttpLedger.BodiesAreExactForAllCuts | 3rd/http_parser/http_parser.c:634-2091 | the same for the callbacks of a parser that was fed pieces |
| HttpShape.OneByteInv | 3rd/http_parser/http_parser.c:1882-2052 | every branch keeps what the asserts in the body and chunk states rest on |
| HttpWhole.MessageIsReported | 3rd/http_parser/http_parser.c:705-2059 | a parser between messages that reads a request or response written from its parts makes exactly the callbacks that the parts say, with verb, version, status, upgrade and next state; the body ends as the headers mean: chunks, length, nothing, or the connection |
| HttpWhole.MessageInOneCall | 3rd/http_parser/http_parser.c:634-2091 | one call reads exactly such a message, stops there if the protocol changes, and makes these callbacks, unless the header limit is reported |
| HttpWhole.MessageInPieces | 3rd/http_parser/http_parser.c:634-2091 | the same callbacks once joined, however the message is cut |
| HttpWhole.FreshIsReady | 3rd/http_parser/http_parser.c:2144-2157 | a parser after http_parser_init can take any message of its type |
| HttpWhole.ReadyAgain | 3rd/http_parser/http_parser.c:2118-2134 | after a message that keeps the connection, by the rule of section 6.3 of RFC 7230, the parser can take the next one |
| HttpMessage.RfcAgreement | 3rd/http_parser/http_parser.c:1836-1880 | the body rule is that of section 3.3.3 of RFC 7230 exactly but for a response that may not have the body its headers announce |
| HttpMessage.StubHides | 3rd/http_parser/http_parser.c:1603-1684 | in `clos,close` the second option is missed |
| HttpLine.MethodLeads | 3rd/http_parser/http_parser.c:954-1052 | every method name and the space after it lead to that method, whichever name the first letter stood for |
| HttpTarget.TargetLeads | 3rd/http_parser/http_parser.c:1053-1125 | every target in absolute, origin, asterisk or authority form is one URL item |
| HttpFirstLine.StatusLineLeads | 3rd/http_parser/http_parser.c:758-953 | a status line gives version, status and reason |
| HttpOptions.OptionsLead | 3rd/http_parser/http_parser.c:1593-1684 | a list of connection options sets the flags of the options that are heard, by the rule of EarAt |
| HttpHeaders.HeadersLead | 3rd/http_parser/http_parser.c:1248-1773 | a list of headers gives its names and values in order, and the flags and the length of its lines in turn |
| HttpHeaders.HeadersMean | 3rd/http_parser/http_parser.c:1248-1773 | these flags and this length are what the headers mean |
| HttpUrl.Url.Parse | 3rd/http_parser/http_parser.c:2343-2444 | accepts exactly what the two machines accept, and then has the fields and the port of ParseUrl |
| HttpUrl.Url.ParseHost | 3rd/http_parser/http_parser.c:2256-2335 | re-splits the host field as the second machine does, and refuses exactly the hosts in which that machine may not end |
| HttpUrl.UrlLayout | 3rd/http_parser/http_parser.c:2256-2444 | the set fields are non-empty slices of the buffer, disjoint and in order, with their signs around them; a schema comes with a host, CONNECT with host and port alone, and the port is the number its digits spell, at most 65535 |
| HttpUrlParts.UrlFromParts | 3rd/http_parser/http_parser.c:2256-2444 | a URL written from scheme, user, host or bracketed address with zone, port, path, query and fragment is accepted, and its fields are exactly the slices of the parts that are there, with the port's number |
| LuaParser.CompileFunction | 3rd/lua-5.3.4/src/lparser.c:1147-1459 | the code compiled for a function body, run from its first instruction, reaches its end with every local as the statements leave it, for every comparison of values and all registers; it fails only with more than 200 locals active, where 255 registers are needed, or with more than 131071 instructions emitted |
| LuaLimits.FunctionLimits | 3rd/lua-5.3.4/src/lparser.c:172-181 | read off the syntax: too many locals only with more than 200 active at once, too many registers only where 255 are needed, too long only with more than 131071 instructions; what compiles stays within the first two |
| LuaLimits.CompileCost | 3rd/lua-5.3.4/src/lcode.c:361-378 | an expression takes no more registers above the locals than its syntax needs, fails for registers only there, and emits no more instructions than its syntax says |
| LuaBlock.FunctionCorrect | 3rd/lua-5.3.4/src/lparser.c:1147-1459 | the same for the generator on values |
| LuaCompile.CompileMeans | 3rd/lua-5.3.4/src/lcode.c:1037-1171 | wherever the code before falls through, the code of an expression built with and, or, not and comparisons ends with its short-circuit value where its kind says, or leaves by a jump that tells the truth |
| LuaCompile.ShortCircuitCorrect | 3rd/lua-5.3.4/src/lcode.c:675-708 | exp2nextreg of a compiled expression puts the short-circuit value into the next register, falls through, and leaves every register in use |
| LuaCompile.AssignmentCorrect | 3rd/lua-5.3.4/src/lcode.c:782-789 | storing to a local gives it the value the expression had before |
| LuaCompile.ConditionCorrect | 3rd/lua-5.3.4/src/lcode.c:857-878 | after luaK_goiftrue control falls through exactly if the expression is true, and otherwise leaves by the false list |
| LuaCond.GoIfMeans | 3rd/lua-5.3.4/src/lcode.c:857-904 | luaK_goiftrue and luaK_goiffalse: falling through and every jump tell the truth about the value |
| LuaCond.CodeNotMeans | 3rd/lua-5.3.4/src/lcode.c:910-939 | codenot gives an expression that means the negation, with its lists exchanged and their values removed |
| LuaValue.ExpToRegMeans | 3rd/lua-5.3.4/src/lcode.c:675-696 | exp2reg: whichever way a run takes, the value ends up in the register and control falls through |
| LuaBound.CompileBounded | 3rd/lua-5.3.4/src/lcode.c:1037-1171 | no jump of compiled code goes beyond its end |
| LuaExec.PatchListMeaning | 3rd/lua-5.3.4/src/lcode.c:195-234 | patchlistaux sends value jumps to vtarget and the rest to dtarget, each exactly once, and changes nothing but the TESTSETs in front of them |
| LuaLists.ListAcyclic | 3rd/lua-5.3.4/src/lcode.c:90-96 | a threaded list that ends never meets a jump twice |
| LuaLists.FuncState.Concat | 3rd/lua-5.3.4/src/lcode.c:116-127 | the result is the concatenation of two disjoint lists, and no instruction outside of the first one changes |
| LuaLists.FuncState.PatchListAux | 3rd/lua-5.3.4/src/lcode.c:224-234 | the loop over a threaded list does what patching its jumps in turn does, and keeps every jump that waits elsewhere |
| LuaLists.FuncState.Code | 3rd/lua-5.3.4/src/lcode.c:242-305 | after luaK_code every pending jump goes to the new instruction, the TESTSETs in front of them keep no value, and no other instruction has changed |
| LuaLists.FuncState.Jump | 3rd/lua-5.3.4/src/lcode.c:136-143 | the new jump heads a list that ends with the jumps to here |
| LuaCode.ExpToReg | 3rd/lua-5.3.4/src/lcode.c:675-696 | exp2reg on threaded lists gives the code, lists and registers of the generator on values |
| LuaOperators.GoIfTrue | 3rd/lua-5.3.4/src/lcode.c:857-878 | luaK_goiftrue on threaded lists does the same as the generator on values |
| LuaOperators.CodeNot | 3rd/lua-5.3.4/src/lcode.c:910-939 | codenot on threaded lists does the same as the generator on values |
| LuaOperators.Compile | 3rd/lua-5.3.4/src/lparser.c:1048-1075 | subexpr with prefix, infix and postfix operators on threaded lists does the same as the generator on values |
| JsonParser.PrintAndParse | 3rd/mjson/json.c:570-796 | a well-formed document of linked nodes, written and read back: both succeed, and the new tree, with its links in order, equals the old one |
| JsonParser.ParseDocument | 3rd/mjson/json.c:2771-2801 | succeeds exactly for the texts of the grammar; the root of the new forest then stands for the tree that the text spells; the code is that of the parser's machine |
| JsonAccept.AcceptedExactly | 3rd/mjson/json.c:2135-2801 | the parser accepts exactly the texts of the grammar, white space anywhere between tokens, and gives the tree they spell |
| JsonAccept.WrittenIsParsed | 3rd/mjson/json.c:2135-2801 | every way of writing an object parses to its tree |
| JsonAccept.ParsedIsWritten | 3rd/mjson/json.c:2135-2801 | what is accepted is an object written by the grammar, and the tree is its meaning |
| JsonAccept.TrailingCommaAccepted | 3rd/mjson/json.c:2616-2683 | `{"a":[true,]}` is accepted and gives an array of one value |
| JsonAccept.UnfinishedAccepted | 3rd/mjson/json.c:2736-2760 | `{}tru` is accepted |
| JsonTokens.LooseIsMore | 3rd/mjson/json.c:1372-2132 | after a document the lexer asks for more exactly at the end of the text or in a token that has only begun |
| JsonParser.ParsingInfo.ParseFragment | 3rd/mjson/json.c:2135-2767 | the loop over a fragment, with nodes linked in place and a resumable lexer, does what the machine does; its tree checks never fail |
| JsonParser.ParsingInfo.Lexer | 3rd/mjson/json.c:1372-2132 | the lexer on its growing text reports the token, position, state and text of Lex |
| JsonRoundTrip.PrintedIsParsed | 3rd/mjson/json.c:570-2801 | on values: parsing the text of a well-formed document gives the document |
| JsonTree.TreeToString | 3rd/mjson/json.c:570-796 | the goto-driven walk over the links writes the text of the tree, and gives up exactly if a label has no value |
| JsonInsert.InsertChild | 3rd/mjson/json.c:454-533 | refuses exactly the pairs of types the source refuses, changing nothing; otherwise the child is last, the tree of the parent adopts its tree, those above follow, and all links are in order |
| JsonLexer.LexString | 3rd/mjson/json.c:1382-1674 | a quoted text in escaped form is one string token with that text |
| JsonLexer.LexNumber | 3rd/mjson/json.c:1818-2127 | a number in the grammar of section 6 of RFC 8259, followed by a delimiter or white space, is one number token with that text |
| JsonLexer.EscapedIsOneToken | 3rd/mjson/json.c:1136-1674 | the quoted escaped form of any text is exactly one string token whose text is that form |
| JsonText.EscapeUndone | 3rd/mjson/json.c:1136-1355 | the escaped form of any text is well escaped and stands for that text |
| JsonText.EscapeAndBack | 3rd/mjson/json.c:1136-1355 | json_unescape of json_escape gives the text back |
| JsonText.Unescape | 3rd/mjson/json.c:1202-1355 | writes what the escapes stand for, within a buffer as long as the text: the write cursor never passes the read cursor |
| JsonText.Utf8IsRight | 3rd/mjson/json.c:1250-1335 | the bytes written for a code point spell it, in as few bytes as UTF-8 (section 3 of RFC 3629) allows |
| JsonText.PointUndone | 3rd/mjson/json.c:1230-1335 | the escape of every code point but the surrogates, as one unit or as a pair, in either case of its digits, unescapes to bytes that spell the code point |
| JsonText.Rcs.Catcs | 3rd/mjson/json.c:121-136 | the buffer grows as needed and holds the old text followed by the new one |
| Sha1.Transform | 3rd/crypto/sha1.c:124-173 | eighty rounds on a 16-word ring are the compression function of section 6.1 of FIPS 180-4 |
| Sha1.RoundConstants | 3rd/crypto/sha1.c:116-120 | the constants are the integer parts of 2^30 times the square roots of 2, 3, 5 and 10 |
| Sha1.InitialBytes | 3rd/crypto/sha1.c:176-185 | the bytes of the initial state are the hexadecimal digits in ascending and descending order |
| Sha1.RoundFunctions | 3rd/crypto/sha1.c:116-120 | bit by bit: choice, parity, majority, parity |
| Sha1.Rotations | 3rd/crypto/sha1.c:101-120 | rotations as products and quotients by powers of two |
| Sha1.Additions | 3rd/crypto/sha1.c:116-120 | sums are those of the integers modulo 2^32 |
| Sha1.ScheduleWord | 3rd/crypto/sha1.c:112-113 | words 16 to 79 of the schedule, without naming the rotation |
| Sha1.WordValue | 3rd/crypto/sha1.c:109-110 | a block word is its four bytes, most significant first |
| Sha1.WordBytesAndBack | 3rd/crypto/sha1.c:109-110 | the digest's bytes read back as big-endian words |
| Sha1.LengthValue | 3rd/crypto/sha1.c:224-227 | the last eight bytes of the padding are the length in bits |
| Sha1.Context.Update | 3rd/crypto/sha1.c:190-215 | after any pieces the state is the fold over all full blocks and the buffer holds the rest; the count is exact exactly if CarrySeen |
| Sha1.Context.Final | 3rd/crypto/sha1.c:219-244 | the digest is that of sections 5.1.1 and 6.1 of FIPS 180-4 on everything hashed, if the counts are exact, and the context is wiped |
| Sha1.CountExact | 3rd/crypto/sha1.c:198-200 | the two count words stay exact exactly if the piece is below 2^29 bytes or the low words carry |
| Sha1.LongPieceMiscounted | 3rd/crypto/sha1.c:198-200 | one piece of 2^29 bytes is counted as 2^30 |
| Sha1.PaddingFills | 3rd/crypto/sha1.c:228-232 | padding fills a block with at most 63 zero bytes |
| Sha1.CryptSha1 | 3rd/crypto/sha1.c:247-254 | the digest of one buffer below 2^29 bytes is that of FIPS 180-4 |
| Inet.FindRun | 3rd/libuv/src/inet.c:85-112 | finds the leftmost longest run of at least two zero words (section 4.2 of RFC 5952) |
| Inet.Ntop6 | 3rd/libuv/src/inet.c:68-154 | writes the text with exactly that run compressed, embedded IPv4 forms included, or reports that the text does not fit |
| Inet.Pton6 | 3rd/libuv/src/inet.c:225-309 | the loop with its in-place shift accepts what the recursive grammar accepts, with the same bytes |
| Inet.RoundTrip6 | 3rd/libuv/src/inet.c:68-309 | inet_pton6 undoes inet_ntop6 for every address |
| Inet.CaseDoesNotMatter | 3rd/libuv/src/inet.c:225-309 | texts that differ in the case of letters alone parse alike |
| Inet.TextFits | 3rd/libuv/src/inet.c:68-154 | no text is longer than INET6_ADDRSTRLEN allows |
| Inet.RoundTrip4 | 3rd/libuv/src/inet.c:53-222 | inet_pton4 undoes inet_ntop4 for every address |

## Left out

- Comparison functions are modelled as integer keys (`key`, `rank`); nodes that compare equal share one.
- tree.h: RB_NFIND, RB_NEXT, RB_PREV, RB_MINMAX, SPLAY_NEXT and SPLAY_MINMAX, which only read or repeat the splay loop; RB_AUGMENT, which is empty.
- ThreadPoolProgress.EverySubmissionIsDone: callbacks that submit or cancel are steps of their own, which it assumes to have stopped; loops run their step when they can.
- ThreadPool.CleanupJoins: the loops take no step in it, as cleanup runs when the process ends; thread creation, environment variables and what a mutex is to the system are not modelled.
- HttpParser.Stream.Execute: callbacks return 0 and pause nothing; lenient and non-strict builds are not modelled. It is stated for pieces below 2^32 - 80 KB - 2 bytes, beyond which the 32-bit nread could wrap, and says nothing about a run that meets an `Unspecified` header byte. The fields of the parser are one record that the branches of the switch replace.
- HttpWhole.MessageIsReported: header lines without folding, CRLF line ends, spaces but no tabs around connection options, at most one Content-Length and none beside chunks, plain trailers, no empty lines in front of a message. Inputs outside of this are covered by the run alone. A HEAD response needs the answer of a callback and is not modelled.
- HttpPieces.SameForAllCuts: an upgrade ends the run early and is not covered; nread is not compared, since a cut inside a header counts one byte more.
- HttpUrl.Url.Parse: buffers of at most 65535 bytes, whose offsets fit 16 bits; strtoul is taken to stop at the end of the port.
- LuaParser.CompileFunction: expressions over locals, nil, booleans, constants and comparisons; statements are assignments, locals with one name, and if. Loops, goto, calls, upvalues, tables, arithmetic, constant folding and line information are not modelled.
- LuaLimits.FunctionLimits: whether code of more than 131071 instructions compiles depends on its jumps and is left open.
- LuaOperators.ExpToRK: constants stand in the instructions themselves, so they always fit: the MAXINDEXRK and LOADKX branches and the constant table are not modelled.
- LuaVM: a test and the jump after it are one step, and only forward jumps occur.
- LuaOperators.Compile: an expdesc is passed and returned as a value, not changed through a pointer.
- JsonText.Unescape: texts in escaped form, with high surrogates followed by low ones; on others the source asserts or reads on.
- json.c: the stream functions, the SAX parser, formatting, white-space stripping, line counts, freeing, and running out of memory.
- JsonInsert.InsertChild: the child hangs nowhere; the source does not check that and would leave wrong links.
- Sha1.Context.Final: messages below 2^61 bytes, as FIPS 180-4 demands.
- inet.c: the scope id that uv_inet_pton cuts off, and the dispatch on the address family.
- utils, database, netbus, Lua bindings, MD5 and base64: glue, or shorter relatives of what is here.
