# cdeck in Dafny

A model of the compiler core of the deck repository, a compiler for a small
concatenative (stack-based) language, with proofs about it.

- **cdeck** (`cdeck/cdc.hpp`, `cdeck/passes/*.hpp`). Source text is lexed
  with one symbol of lookahead and parsed by recursive descent into a flat
  *tape* of symbols. A block is an opener (PROGRAM, FN, LET, MARK, QUOTE),
  a body and a closing END. The driver (`cdeck/cdc.cpp:38-52`) then runs the
  passes on the tape and a shared `Context` in this order: quotes, discover,
  verify, refgraph, ranges, reorder, emit. The dead and effect passes are in
  the core but the driver does not call them.
  - *quotes* turns every anonymous quote into a generated, named function at
    the end of the program.
  - *discover* enters every function into the symbol table.
  - *verify* resolves identifiers against a scoped table.
  - *refgraph* records which function addresses which.
  - *ranges* records each function's span.
  - *dead* inverts the reference graph and reports what nothing references.
  - *reorder* copies the functions to a new tape in the order its walk first
    enters them; as written this is not a dependency order (see Findings).
  - *emit* and *effect* walk the final tape.
- **deck** (`cdeck/include/deck/deck.hpp`, `.../passes/x86-64.hpp`). The
  rewritten front end: a lexer, a parser for `[ ]` frames and `{ }` quotes,
  and the visitor walk. On top of it sits the x86-64 emitter, which turns a
  tape into assembly lines.
- **C lexers.** `cdc/src/cdc.c` (repeated in `cdc/include/cdc/cdc.h`) and
  `cdc/include/cdc/lexer.h`: pointer-based lexers that try whitespace,
  comments, identifiers, `#symbols`, numbers and sigils in turn.
- **`dk_basename`** (`cdc/include/cdc/util.h`). Copies the last path
  component into a caller's buffer.

Layout:

| files | what they hold |
|---|---|
| `symbols.dfy` | symbol kinds, symbols, reports, `Result` |
| `views.dfy` | string views and the FNV-1a hash |
| `tape.dfy` | the positional tape walk (`Item`, `Body`) and the ghost tree a balanced tape spells out (`Node`, `Flatten`) |
| `lexer.dfy`, `parser.dfy` | the cdeck front end |
| `quotes.dfy`, `discover.dfy`, `verify.dfy`, `refgraph.dfy`, `ranges.dfy`, `dead.dfy`, `reorder.dfy`, `emit.dfy`, `effect.dfy` | the passes |
| `reorder_dfs.dfy` | the reorder walk as intended |
| `deck.dfy`, `x86.dfy` | the deck front end and the x86-64 emitter |
| `clexer.dfy`, `dklexer.dfy` | the two C lexers |
| `basename.dfy` | `dk_basename` |

How the model is written:

- Iterators and pointers become indices.
- A thrown `Report`, a `fatal` call or a `false` return becomes a
  `Result`/`Res` value carrying the error kind.
- Objects whose fields the source updates are classes: the cdeck `Lexer`
  and `Context`, the deck `Lexer`, the x86 emitter, and the C lexer structs.
- Where the code and its evident intent differ (see Findings), the deck and
  dk lexer classes and the x86 emitter class follow the code as written, and
  the intended version is stated and proved beside it.
- Each pass is a method. Its result is proved equal to a specification
  function (on the tape, or on the tree the tape spells out), and that
  function's properties are proved as lemmas.

## Model

| member | source | states |
|---|---|---|
| Views.Length | cdeck/cdc.hpp:217-221 | `length` is the distance between the two ends, whichever comes first |
| Views.Cmp | cdeck/cdc.hpp:223-236 | `cmp` is true exactly when the two views spell the same characters (same length, same bytes) |
| Views.BeginsWith | cdeck/cdc.hpp:238-245 | `begins_with` compares the first `length(begins)` characters; when they lie inside the view, true exactly when `begins` is a prefix of it |
| Views.Next | cdeck/cdc.hpp:286-289 | `next` drops the first character of a non-empty view and keeps an empty one |
| Views.Peek | cdeck/cdc.hpp:291-294 | `peek` is the one-character view at the start, or the empty view itself |
| Views.Stretch | cdeck/cdc.hpp:282-284 | `stretch` runs from the start of the first view to the end of the second |
| Views.TakeChar | cdeck/cdc.hpp:296-301 | `take` returns the first character and advances the view past it; together they spell the old view |
| Views.Span | cdeck/cdc.hpp:304-311 | the end of the longest run from `i` whose characters all satisfy the predicate: every character before it satisfies it, the one at it does not |
| Views.TakeWhile | cdeck/cdc.hpp:304-311 | `take_while` returns the longest prefix satisfying `fn` and leaves the view at exactly the remainder |
| Views.Widen | cdeck/cdc.hpp:191 | `static_cast<size_t>` of a signed `char`: bytes below 0x80 keep their value, higher bytes sign-extend |
| Views.HashBytes | cdeck/cdc.hpp:184-196 | the loop computes the FNV-1a fold over the bytes, modulo 2^64 |
| Views.FnvAscii | cdeck/cdc.hpp:184-196 | on bytes below 0x80 the fold is standard 64-bit FNV-1a |
| Views.FnvVectors | cdeck/cdc.hpp:185-191 | the empty input hashes to the offset basis 14695981039346656037; "a" to the standard FNV-1a value |
| Views.FnvHighByte | cdeck/cdc.hpp:191 | a byte of 0x80 or more is sign-extended before the XOR, so the hash differs from standard FNV-1a |
| CdcLexer.LexAt | cdeck/cdc.hpp:505-568 | one token from a non-blank position: brackets and quotes are one character (`}`/`]` keep their text), a string runs to the next '"', digits and visible runs are maximal, "#!" runs are comments, anything else is UNKNOWN_CHAR with that character; a LET token always reads "let" and an FN token "::" |
| CdcLexer.Scan | cdeck/cdc.hpp:498-568 | whitespace skipped, then one token; TERM with empty text exactly at the end of the input, otherwise the position advances; a LET token reads "let" and an FN token "::"; a failure is always UNKNOWN_CHAR on one character |
| CdcLexer.LexWord | cdeck/cdc.hpp:527-564 | the visible-run branch computes what `LexAt` specifies, comments included |
| CdcLexer.LexSymbol | cdeck/cdc.hpp:502-568 | the branch chain of `take` computes what `LexAt` specifies |
| CdcLexer.Lexer.constructor | cdeck/cdc.hpp:492-495 | the lexer starts on the whole source, with `peek` and `prev` NONE on the first character |
| CdcLexer.Lexer.Take | cdeck/cdc.hpp:498-576 | returns the old `peek`, stores the newly scanned symbol as `peek` and the old one as `prev`, and advances the view; the pending symbol stream (`peek` followed by the stream of the unread view) loses exactly the symbol handed out; a failure is UNKNOWN_CHAR and means the pending stream stops at an unknown character |
| CdcLexer.Lexer.Expect | cdeck/cdc.hpp:582-585 | `expect` reports the given error on `peek`'s text exactly when the test fails |
| CdcLexer.ScanExhausted | cdeck/cdc.hpp:502-503 | once only whitespace is left, every further scan yields TERM at the end of the input |
| CdcLexer.WordAt | cdeck/cdc.hpp:527-564 | a word is the maximal run of visible characters, and its kind is decided on the whole run |
| CdcLexer.LetFoo | cdeck/cdc.hpp:541-564 | "letfoo" is one IDENT, not LET followed by "foo" |
| CdcParser.Literal | cdeck/cdc.hpp:639-643 | `literal` takes the peeked INT or STR, which is the next symbol of the pending stream, and moves on; anything else is EXPECT_LITERAL |
| CdcParser.Instructions | cdeck/cdc.hpp:653-656 | the shared "while the peeked symbol is an instruction" loop: the symbols it collects are the concatenation of well-formed blocks, they were built from exactly the next tokens of the pending stream, and it stops on a non-instruction |
| CdcParser.Quote | cdeck/cdc.hpp:645-664 | `quote` yields a balanced block: the `{` opener, the body, and an END carrying the closer's text "}"; the tokens it consumed are `{`, the body's tokens and `}` |
| CdcParser.Let | cdeck/cdc.hpp:666-687 | `let` yields LET name, the body for as long as instructions come, and END name, where the name is the text of the IDENT token that follows `let` in the stream; the tokens consumed are `let`, that IDENT and the body's, and no closing token is consumed |
| CdcParser.Workspace | cdeck/cdc.hpp:689-708 | `workspace` yields the `[` opener, the body, and an END carrying "]"; the tokens consumed are `[`, the body's tokens and `]` |
| CdcParser.Instruction | cdeck/cdc.hpp:710-736 | `instruction` rejects a non-instruction with EXPECT_INSTRUCTION, and otherwise yields one atom or one balanced LET/MARK/QUOTE block; outside LET the tape starts with the peeked symbol, and in every case the tape is built from exactly the tokens the node stands for (for LET: `let`, the bound IDENT whose text names the block, then the body) |
| CdcParser.Function | cdeck/cdc.hpp:738-758 | `function` yields FN name, the body, END name; the tokens consumed are the body's, then `::`, then the IDENT whose text is the name |
| CdcParser.Program | cdeck/cdc.hpp:760-774 | `program` yields a balanced PROGRAM … END tape whose items are all function definitions, stops on TERM, and the functions hold exactly the whole pending token stream |
| CdcParser.Parse | cdeck/cdc.cpp:38-44 | the driver's front end: prime the lexer, parse; on success the tape is balanced, opens with PROGRAM, ends with the END taken from TERM, and its functions are built from exactly the token stream of the source (`Stream(src, 0)`); a source whose stream stops at an unknown character fails |
| Tape.Item | cdeck/cdc.hpp:792-803 | the position a pass visitor returns for the item at `i`: one past an atom, or one past the END that closes an opener's body; always beyond `i` and within the tape |
| Tape.Body | cdeck/cdc.hpp:792-803 | `visit_block` from `j`: items are visited until an END, and the result is one past that END |
| Tape.FlattenItem | cdeck/cdc.hpp:792-803 | a well-formed block spelled out at `i` is one item, ending exactly where its symbols end |
| Tape.FlattenBody | cdeck/cdc.hpp:799-802 | over a run of well-formed blocks followed by an END, `visit_block` returns one past that END |
| Tape.TreeAt | cdeck/cdc.hpp:792-803 | every item of the tape is spelled out by a well-formed block |
| Tape.KidsAt | cdeck/cdc.hpp:799-802 | every body `visit_block` can walk is a run of well-formed blocks followed by its END |
| Tape.BalancedTree | cdeck/cdc.hpp:760-774 | a balanced tape is exactly the symbols of one well-formed block |
| Tape.TreeBalanced | cdeck/cdc.hpp:760-774 | the symbols of a well-formed block form a balanced tape |
| Tape.Context.constructor | cdeck/cdc.hpp:777-786 | a fresh `Context`: empty symbol table, reference graph and range table, nothing interned, `intern_id` 0 |
| Quotes.DigitChar | cdeck/passes/quotes.hpp:30 | the character of a decimal digit is that digit |
| Quotes.Digits | cdeck/passes/quotes.hpp:30 | `std::to_string` of an id: at least one digit, all of them decimal, no leading zero, two or more exactly from 10 on |
| Quotes.DigitsRoundTrip | cdeck/passes/quotes.hpp:30 | reading the digits back gives the id |
| Quotes.QuoteNameInjective | cdeck/passes/quotes.hpp:30 | `___fn_` names of two ids are equal exactly when the ids are: generated names never clash |
| Quotes.Names | cdeck/passes/quotes.hpp:30 | the names interned while `intern_id` runs from one value to another: one per id |
| Quotes.NamesElem | cdeck/passes/quotes.hpp:30 | the k-th of them is the name of the k-th id |
| Quotes.NamesNoDup | cdeck/passes/quotes.hpp:30 | no name is interned twice |
| Quotes.NamesAppend | cdeck/passes/quotes.hpp:30 | the names of two consecutive id ranges are those of the joined range |
| Quotes.LowerNode | cdeck/passes/quotes.hpp:28-63 | lowering a node never lowers `intern_id` |
| Quotes.LowerNodes | cdeck/passes/quotes.hpp:62 | lowering a body keeps one site per item and never lowers `intern_id` |
| Quotes.LowerNext | cdeck/passes/quotes.hpp:30 | lowering a node consumes exactly one id per quote in it |
| Quotes.LowerNodesNext | cdeck/passes/quotes.hpp:30 | the same for a body |
| Quotes.LowerWF | cdeck/passes/quotes.hpp:28-63 | lowering keeps the site and every hoisted function well-formed blocks |
| Quotes.QuoteWF | cdeck/passes/quotes.hpp:28-56 | the same for a quote, whose site is a single ADDR |
| Quotes.OpenWF | cdeck/passes/quotes.hpp:58-63 | the same for PROGRAM, MARK, LET and FN blocks |
| Quotes.HoistWF | cdeck/passes/quotes.hpp:47-55 | the FN block a quote becomes is well-formed |
| Quotes.LowerNodesWF | cdeck/passes/quotes.hpp:62 | the same for a body |
| Quotes.LowerCounts | cdeck/passes/quotes.hpp:33-55 | per kind, symbols are conserved except that each quote turns its QUOTE opener into an FN and adds one ADDR |
| Quotes.QuoteCounts | cdeck/passes/quotes.hpp:33-55 | the same for a quote |
| Quotes.QuoteBlockCount | cdeck/passes/quotes.hpp:28 | a quote counts its opener, its body and its END |
| Quotes.HoistCount | cdeck/passes/quotes.hpp:53-55 | a hoisted function counts one FN, its body and one END |
| Quotes.LowerNodesCounts | cdeck/passes/quotes.hpp:62 | the same conservation for a body |
| Quotes.LowerQuoteFree | cdeck/passes/quotes.hpp:28-63 | no quote is left in the site or in the hoisted functions |
| Quotes.LowerNodesQuoteFree | cdeck/passes/quotes.hpp:62 | the same for a body |
| Quotes.LowerLength | cdeck/passes/quotes.hpp:37 | the site and hoisted functions together are one symbol longer per quote: the inserted copy |
| Quotes.LowerNodesLength | cdeck/passes/quotes.hpp:37 | the same for a body |
| Quotes.LowerIdentity | cdeck/passes/quotes.hpp:58-65 | a node without quotes is left as it is and consumes no id |
| Quotes.LowerNodesIdentity | cdeck/passes/quotes.hpp:62 | the same for a body |
| Quotes.HoistedNamesAppend | cdeck/passes/quotes.hpp:53-55 | the names of two runs of hoisted functions are those of the first then the second |
| Quotes.LowerHoisted | cdeck/passes/quotes.hpp:30-55 | every hoisted function is a quote-free FN block whose opener and END carry its name, and the names are exactly those of the ids consumed, once each |
| Quotes.QuoteHoistedNames | cdeck/passes/quotes.hpp:30-55 | the same for a quote, whose own function comes after those hoisted from its body |
| Quotes.HoistLast | cdeck/passes/quotes.hpp:47-55 | appending the quote's own function after its body's keeps the names those of the ids consumed |
| Quotes.LowerNodesHoisted | cdeck/passes/quotes.hpp:62 | the same for a body |
| Quotes.RunShrinks | cdeck/passes/quotes.hpp:62 | walking on into what was hoisted ends: the quotes left to lower, or else the items left, decrease |
| Quotes.RunIdentity | cdeck/passes/quotes.hpp:58-65 | walking quote-free hoisted functions leaves them as they are |
| Quotes.RunIsLower | cdeck/passes/quotes.hpp:62 | the root's walk over its items and then over everything they hoisted equals lowering the items and placing what they hoisted after them |
| Quotes.RunCons | cdeck/passes/quotes.hpp:62 | one step of the root's walk: lower the first item, then walk the rest followed by what it hoisted |
| Quotes.LowerProgramProps | cdeck/passes/quotes.hpp:71-75 | on a well-formed program the result is well-formed, quote-free, one symbol longer per quote, keeps its first and last symbol, consumes one id per quote, and is the program itself when it has no quote |
| Quotes.LowerProgramClean | cdeck/passes/quotes.hpp:71-75 | the lowered program is well-formed and quote-free |
| Quotes.BlockQuoteFree | cdeck/passes/quotes.hpp:58-63 | a block whose body was lowered, with its hoisted functions after it, is quote-free |
| Quotes.LowerProgramSize | cdeck/passes/quotes.hpp:71-75 | the lowered program is one symbol longer per quote and consumes one id per quote |
| Quotes.LowerProgramIdentity | cdeck/passes/quotes.hpp:71-75 | a program without quotes is unchanged |
| Quotes.QuotesVisit | cdeck/passes/quotes.hpp:15-69 | on the tape, an item is replaced by its lowered site, what it hoists lands in front of the tape's last symbol, the index returned is past the site, and the ids consumed are interned in order |
| Quotes.QuotesOpen | cdeck/passes/quotes.hpp:58-63 | the same for PROGRAM, MARK, LET and FN blocks |
| Quotes.QuoteVisit | cdeck/passes/quotes.hpp:28-56 | the same for a quote: it becomes an ADDR of a fresh name, and its body, renamed FN ... END, moves in front of the tape's last symbol |
| Quotes.RotateBack | cdeck/passes/quotes.hpp:47 | `std::rotate(first, middle, end - 1)`: same length, the prefix and the last symbol stay |
| Quotes.RotateBackPermutes | cdeck/passes/quotes.hpp:47 | rotation only permutes the tape |
| Quotes.RotateBackMoves | cdeck/passes/quotes.hpp:47-48 | the moved run lands just before the last symbol, and what followed it moves up to `first` |
| Quotes.QuoteDone | cdeck/passes/quotes.hpp:28-56 | the tape and intern table after the quote's steps are those `LowerNode` describes |
| Quotes.QuoteBody | cdeck/passes/quotes.hpp:41-55 | walking the copied body, rotating it to the end and renaming its ends gives `FN name`, the lowered body and `END name` in front of the last symbol |
| Quotes.InsertAddr | cdeck/passes/quotes.hpp:33-38 | after retagging and inserting the copy the tape holds the ADDR twice where the quote stood, the rest unchanged |
| Quotes.MoveToEnd | cdeck/passes/quotes.hpp:44-55 | the run from the copy to the quote's END moves in front of the last symbol with its ends renamed FN name and END name |
| Quotes.QuoteLowered | cdeck/passes/quotes.hpp:28-56 | walking the body behind the leading ADDR copy is lowering the quote |
| Quotes.InternQuote | cdeck/passes/quotes.hpp:30 | interning the quote's name and then its body's names interns the names of the whole id range |
| Quotes.QuoteKids | cdeck/passes/quotes.hpp:38-41 | the leading ADDR copy is left alone by the body's walk |
| Quotes.QuotesBlock | cdeck/passes/quotes.hpp:62 | visit_block rewrites a body into its lowered sites, hoists in front of the last symbol and returns past its END |
| Quotes.GlueStep | cdeck/passes/quotes.hpp:62 | one more item of the body's walk keeps the lowered prefix and hoists in order |
| Quotes.QuotesItem | cdeck/passes/quotes.hpp:62 | one turn of that walk keeps the walk's invariant |
| Quotes.QWalkStart | cdeck/passes/quotes.hpp:62 | the invariant holds at the body's start |
| Quotes.BlockEnd | cdeck/passes/quotes.hpp:62 | at the END the invariant gives the rewritten tape |
| Quotes.InternStep | cdeck/passes/quotes.hpp:30 | names interned over consecutive ranges join up |
| Quotes.Run | cdeck/passes/quotes.hpp:71-75 | the tape becomes the flattening of the lowered program, `intern_id` advances by the number of quotes and their names are appended to the intern table in order |
| Quotes.RootWalk | cdeck/passes/quotes.hpp:58-62 | the root's walk covers its items and then the functions hoisted in front of its END |
| Quotes.RootLowered | cdeck/passes/quotes.hpp:71-75 | that walk equals lowering the program |
| Discover.RegisterAppend | cdeck/passes/discover.hpp:26-35 | registering the FN names of two consecutive runs is registering the first, then the second from where the first left the table; a clash in the first stops there |
| Discover.RegisterOk | cdeck/passes/discover.hpp:28-32 | the emplace sequence succeeds exactly when the names are pairwise distinct and none is already in the table, and the table then gains exactly those names, as FN |
| Discover.RegisterDistinct | cdeck/passes/discover.hpp:28 | distinct fresh names are all entered as FN |
| Discover.RegisterFresh | cdeck/passes/discover.hpp:31-32 | a successful registration had no duplicate and no name already present |
| Discover.RegisterFail | cdeck/passes/discover.hpp:31-32 | a failed registration is a CLASH on one of the FN names |
| Discover.StepNames | cdeck/passes/discover.hpp:34-41 | the FN names of a body are those of its items in order |
| Discover.DiscoverVisit | cdeck/passes/discover.hpp:13-48 | `discover_visit` on one item returns the position past it and enters its FN names (its own and nested ones) in tape order; the first duplicate is a CLASH; the tape is not touched |
| Discover.DiscoverBlock | cdeck/passes/discover.hpp:34-41 | `visit_block` with `discover_visit` enters the FN names of the whole body and returns one past its END, or reports the first CLASH |
| Discover.Run | cdeck/passes/discover.hpp:50-54 | `discover` succeeds exactly when the tape's FN names are distinct and new; then the table gains exactly the tape's FN names, as FN; otherwise it reports CLASH on one of them |
| Verify.VerifyNodePreserves | cdeck/passes/verify.hpp:24-63 | verifying an item keeps it well formed and of the same length, and changes nothing but identifier tags |
| Verify.VerifyBlockPreserves | cdeck/passes/verify.hpp:40-58 | the same for a block: its opener and END stay, its body is verified in place |
| Verify.VerifyNodesPreserves | cdeck/passes/verify.hpp:47 | the same for a body walked by `visit_block` |
| Verify.VerifyNodeClears | cdeck/passes/verify.hpp:25-37 | when every name in scope is a function or a binding, a verified item holds no IDENT |
| Verify.VerifyNodesClears | cdeck/passes/verify.hpp:47 | the same for a verified body |
| Verify.VerifyNodeFails | cdeck/passes/verify.hpp:30-31 | verification fails only with UNDEFINED or CLASH |
| Verify.VerifyNodesFails | cdeck/passes/verify.hpp:44-47 | the same for a body |
| Verify.VerifyNodeIdentity | cdeck/passes/verify.hpp:24-61 | an item without IDENT and LET symbols is left exactly as it is |
| Verify.VerifyNodesIdentity | cdeck/passes/verify.hpp:47 | the same for a body |
| Verify.VerifyNodesCons | cdeck/passes/verify.hpp:47 | a body is verified item after item, stopping at the first failure |
| Verify.VerifyVisit | cdeck/passes/verify.hpp:12-64 | `verify_visit` on the item at `i` fails exactly as the specification `VerifyNode` does (UNDEFINED for an unknown IDENT, CLASH for a LET name in scope); on success it returns the position past the item, the tape holds the verified item in its place, and the symbol table is as before |
| Verify.VerifyOpen | cdeck/passes/verify.hpp:40-58 | the opener cases: a LET whose name is in scope is a CLASH; otherwise the name is in scope for the body only (inserted before, erased after), and the body is verified in place |
| Verify.VerifyBlock | cdeck/passes/verify.hpp:47 | `visit_block` with `verify_visit`: the body is verified item by item in place, the result is one past the END, the symbol table is restored, and the first failure is the specification's |
| Verify.VerifyItem | cdeck/passes/verify.hpp:47 | one iteration of that loop keeps its invariant, or reports the failure the specification gives for the whole body |
| Verify.Run | cdeck/passes/verify.hpp:66-70 | `verify`: the rewritten tape is the flattening of `VerifyNode` on the tree of the input tape, and the pass fails exactly when `VerifyNode` does; on success the tape keeps its length, balance, texts and order, only identifier tags change, no IDENT is left when the table holds only functions and bindings, and the symbol table is as before; failures are UNDEFINED or CLASH |
| RefGraph.EdgesAllAppend | cdeck/passes/refgraph.hpp:46-53 | the edges of a body are those of its items, in order |
| RefGraph.LinkAppend | cdeck/passes/refgraph.hpp:34-41 | entering two runs of edges is entering the first, then the second |
| RefGraph.LinkSpec | cdeck/passes/refgraph.hpp:34-41 | after entering edges, a parent is a key exactly when it was one or starts an entered edge, and `c` is among its children exactly when it was or (parent, c) was entered: edges are only added, duplicates collapse, self-references stay |
| RefGraph.EdgeCount | cdeck/passes/refgraph.hpp:29-42 | an item contributes one edge per ADDR symbol in it |
| RefGraph.EdgeCountAll | cdeck/passes/refgraph.hpp:46-53 | the same for a body |
| RefGraph.EdgesKeepParent | cdeck/passes/refgraph.hpp:49-54 | an item without a nested FN starts every edge at the name handed down: PROGRAM, MARK, QUOTE and LET keep the enclosing function |
| RefGraph.EdgesAllKeepParent | cdeck/passes/refgraph.hpp:49-54 | the same for a body |
| RefGraph.RefVisit | cdeck/passes/refgraph.hpp:15-60 | `refgraph_visit` returns the position past the item and enters exactly the item's edges, each from the innermost enclosing FN (the one handed down outside a nested FN) to the ADDR's text; the tape is not touched |
| RefGraph.RefBlock | cdeck/passes/refgraph.hpp:46-53 | `visit_block` with `refgraph_visit` enters the edges of the body's items in order and returns one past its END |
| RefGraph.VisitStep | cdeck/passes/refgraph.hpp:46-53 | one more item walked: the table is the one the walk so far specifies, extended by that item's edges |
| RefGraph.Run | cdeck/passes/refgraph.hpp:62-66 | `refgraph` starts outside any function (the empty name) and enters the edges of the whole tape |
| Ranges.SpansAllAppend | cdeck/passes/ranges.hpp:34-39 | the spans recorded for a body are those of its items, in tape order |
| Ranges.RecordAppend | cdeck/passes/ranges.hpp:31 | recording two runs of spans is recording the first, then the second |
| Ranges.RecordKeeps | cdeck/passes/ranges.hpp:31 | `try_emplace`: a name already in the table keeps its entry whatever is recorded later |
| Ranges.RecordFirst | cdeck/passes/ranges.hpp:31 | a name not yet in the table ends up with the first span recorded for it |
| Ranges.RecordFrom | cdeck/passes/ranges.hpp:31 | every name the pass adds maps to a span that was recorded for that name; nothing else becomes a key |
| Ranges.SpansShape | cdeck/passes/ranges.hpp:26-32 | every span recorded inside a node starts at an `FN name` opener on the tape and ends just past that function's END, within the node |
| Ranges.SpansAllShape | cdeck/passes/ranges.hpp:34-39 | the same for a body |
| Ranges.RunSpans | cdeck/passes/ranges.hpp:47-51 | after the pass over a balanced program every added name maps to (index of its FN opener, index just past its END) |
| Ranges.OpenerSpans | cdeck/passes/ranges.hpp:26-39 | a block's spans are its body's followed by its own when it is a function: the body is visited before the function's range is recorded |
| Ranges.FnRecorded | cdeck/passes/ranges.hpp:30-31 | recording the function's span after its body is `Record` of the body's spans plus that span |
| Ranges.VisitStep | cdeck/passes/ranges.hpp:34-39 | visiting one more item extends the recorded spans by that item's and advances past it |
| Ranges.RangesVisit | cdeck/passes/ranges.hpp:17-45 | returns the index just past the item and sets the table to `Record` of the old table and the item's spans; other symbols record nothing |
| Ranges.RangesBlock | cdeck/passes/ranges.hpp:30 | the walk of a body returns the index past its END and records the body's spans |
| Ranges.RangesItem | cdeck/passes/ranges.hpp:30 | one turn of that walk keeps the walk's invariant: items done so far are a prefix of the body and their spans are recorded |
| Ranges.Run | cdeck/passes/ranges.hpp:47-51 | on an empty tape nothing changes; otherwise the pass ends at the end of the tape with the program's spans recorded |
| Dead.InvertedEmpty | cdeck/passes/dead.hpp:57-59 | the inverted map starts with `main` and no parents, so `main` is always kept |
| Dead.InvertStep | cdeck/passes/dead.hpp:63-70 | one `try_emplace`-or-add step enters the edge (parent, child) into the inverted map |
| Dead.InvertedSpec | cdeck/passes/dead.hpp:57-72 | a name is a key exactly when it is `main` or some function references it, and its set holds exactly the functions that reference it |
| Dead.Inverse | cdeck/passes/dead.hpp:57-72 | the loops over the reference graph build that inverted map |
| Dead.DeadNamesAllAppend | cdeck/passes/dead.hpp:39 | the names reported in a body are those of its items, in order |
| Dead.DeadNamesSpec | cdeck/passes/dead.hpp:26-33 | inside an item a name is reported exactly when an `FN name` opener is in it and the name is not a key of the inverted map |
| Dead.DeadNamesAllSpec | cdeck/passes/dead.hpp:34-40 | the same for a body |
| Dead.DeadVisit | cdeck/passes/dead.hpp:12-46 | returns the index past the item and the names it reports |
| Dead.DeadBlock | cdeck/passes/dead.hpp:27 | the walk of a body returns the index past its END and the names reported in it |
| Dead.Run | cdeck/passes/dead.hpp:48-88 | a function is reported exactly when it is defined on the tape, is not `main`, and no function references it |
| Reorder.UnseenMono | cdeck/passes/reorder.hpp:68-72 | marking a function seen never raises the count of unseen functions, and entering an unseen one lowers it: the walk ends although an ADDR jumps backwards |
| Reorder.VisitW | cdeck/passes/reorder.hpp:36-91 | the walk only adds to `seen`, always moves forward, and an unseen function it enters becomes seen |
| Reorder.BlockW | cdeck/passes/reorder.hpp:60-84 | the walk of a body only adds to `seen` and stops inside the tape |
| Reorder.Visit | cdeck/passes/reorder.hpp:36-91 | reorder_visit computes exactly the walk `VisitW`: same stopping index, same seen set, same new tape |
| Reorder.Block | cdeck/passes/reorder.hpp:60-84 | its loop over a body computes exactly `BlockW` |
| Reorder.ChunksAppend | cdeck/passes/reorder.hpp:74-77 | the spans of two runs of names are those of the first followed by those of the second |
| Reorder.CopiedTrans | cdeck/passes/reorder.hpp:68-77 | functions copied by two walks one after the other are those of the first then the second, still each at most once |
| Reorder.CopiedFn | cdeck/passes/reorder.hpp:68-77 | entering an unseen function copies it after what its body copied, when it has a range |
| Reorder.VisitCopies | cdeck/passes/reorder.hpp:36-91 | the walk only ever appends whole function spans, one per function newly seen that has a range, none twice |
| Reorder.BlockCopies | cdeck/passes/reorder.hpp:60-84 | the same for the walk of a body |
| Reorder.Run | cdeck/passes/reorder.hpp:93-105 | the new tape is PROGRAM's opener, the spans of the copied functions, then the tape's last symbol |
| Reorder.AsWrittenOrder | cdeck/passes/reorder.hpp:51-62 | on a program where `f` references `g` and `h` references `f`, the walk as written emits `g`, `h`, `f`: the ADDR of `g` walks on from `g`'s opener through `h` |
| ReorderDfs.AsWrittenNotTopo | cdeck/passes/reorder.hpp:51-78 | that order places `h` before the `f` it references, which no cycle excuses |
| ReorderDfs.SoundFits | cdeck/passes/ranges.hpp:26-32 | the table the ranges pass leaves for a program without name clashes satisfies what the walk needs |
| ReorderDfs.DfsVisit | cdeck/passes/reorder.hpp:36-91 | the intended walk of an item ends just past the item and only adds to `seen` |
| ReorderDfs.DfsBlock | cdeck/passes/reorder.hpp:60-84 | the intended walk of a body ends just past its END |
| ReorderDfs.ChainSuffix | cdeck/passes/reorder.hpp:4-12 | along a chain of references every name reaches the last one |
| ReorderDfs.VisitProps | cdeck/passes/reorder.hpp:36-91 | one intended visit keeps the invariant: every seen name is copied or pending, copies come once each and only as whole spans, and every copied function comes after those it references unless they are on a cycle |
| ReorderDfs.BlockProps | cdeck/passes/reorder.hpp:60-84 | the same for a body, and every function defined or referenced in it has been seen |
| ReorderDfs.DfsRun | cdeck/passes/reorder.hpp:93-105 | on a balanced program the intended walk copies every function exactly once, each after the functions it references (cycles aside), and the new tape is PROGRAM's opener followed by those spans |
| ReorderDfs.IntendedOrder | cdeck/passes/reorder.hpp:36-105 | on the same program the intended walk emits `g`, `f`, `h`: definitions before references |
| Emit.FirstUnexpected | cdeck/passes/emit.hpp:69-75 | finds the first IDENT, QUOTE, UNMARK or UNQUOTE of a run, and finds none exactly when the run holds none |
| Emit.FirstAt | cdeck/passes/emit.hpp:69-75 | an unexpected symbol with none before it is the first one |
| Emit.OutcomeAfterClean | cdeck/passes/emit.hpp:66 | a clean prefix does not change the outcome of walking what follows |
| Emit.OutcomeAfterFail | cdeck/passes/emit.hpp:74 | once a run has reported, what follows it does not matter |
| Emit.Visit | cdeck/passes/emit.hpp:13-81 | visiting an item yields the index past it when the item is clean, and otherwise the UNREACHABLE report for its first unexpected symbol |
| Emit.Block | cdeck/passes/emit.hpp:66 | the same for a body up to and including its END |
| Emit.StepOutcome | cdeck/passes/emit.hpp:66 | one more clean item keeps the walked prefix clean; a failing item decides the body's outcome |
| Emit.EndOutcome | cdeck/passes/emit.hpp:66 | reaching END after a clean prefix ends the body with the index past END |
| Emit.Run | cdeck/passes/emit.hpp:83-87 | emit succeeds with the tape's length exactly when no unexpected symbol is on the tape, and otherwise reports the first one as UNREACHABLE |
| Effect.Run | cdeck/passes/effect.hpp:17-91 | effect succeeds or reports exactly as emit does |
| Deck.Retag | cdeck/include/deck/deck.hpp:411-427 | a `$word` is accepted exactly when it is `decl`, `def` or `addr` |
| Deck.IntrinsicWords | cdeck/include/deck/deck.hpp:411-427 | `decl` becomes a declaration, `def` a label, `addr` an address, and any other word is fatal with `unknown intrinsic` |
| Deck.Raw | cdeck/include/deck/deck.hpp:321-408 | one symbol lexed from a non-blank position: it ends within the source and after its start unless it is the terminator, which only the NUL gives; brackets carry their own text |
| Deck.Lexed | cdeck/include/deck/deck.hpp:311-432 | after retagging, the symbol is one the lexer can hand out, and the position only moves forward |
| Deck.ScanAt | cdeck/include/deck/deck.hpp:380-400 | a `#!` comment is skipped to the end of its line before lexing on |
| Deck.ScanWith | cdeck/include/deck/deck.hpp:311-432 | `take`: whitespace skipped, one symbol lexed; the terminator is reported only at the NUL. The flag chooses the string branch as written (`ScanAsWritten`, closing quote left unread) or as intended (`Scan`, quote passed) |
| Deck.ScanFatal | cdeck/include/deck/deck.hpp:402-426 | lexing, as written or with the closing quote passed, fails only with `unknown intrinsic` or `unknown character` |
| Deck.StreamSymbols | cdeck/include/deck/deck.hpp:311-432 | the symbols `take` hands out up to the terminator are all lexable and none is the terminator; the stream stops only at `unknown intrinsic` or `unknown character` |
| Deck.TerminatorRepeats | cdeck/include/deck/deck.hpp:321-323 | at the NUL the lexer stays put and hands out the terminator again |
| Deck.StringNotClosed | cdeck/include/deck/deck.hpp:363-370 | as written, after `"a"` the closing quote is read again as the start of a new string |
| Deck.StringClosed | cdeck/include/deck/deck.hpp:363-370 | with the closing quote passed, `"a"` is one string followed by the terminator |
| Deck.StringResumes | cdeck/include/deck/deck.hpp:363-370 | with the closing quote passed, a string holds the text up to the next quote, and lexing resumes after that quote |
| Deck.Lexer.constructor | cdeck/include/deck/deck.hpp:307 | the lexer starts at the beginning of the source with `peek` of kind None |
| Deck.Lexer.Take | cdeck/include/deck/deck.hpp:311-432 | hands back the old `peek` and lexes the next symbol into `peek` as `ScanAsWritten` (the code as written) says; on an error `peek` is kept |
| Deck.Lexer.Advance | cdeck/include/deck/deck.hpp:311-432 | under the parser's use, `take` returns the old `peek`, keeps the lexer primed, makes progress, and the pending stream (`peek` followed by `Stream` from the pointer) loses exactly that symbol; an error means the pending stream stops at that error |
| Deck.Lexer.TakeAt | cdeck/include/deck/deck.hpp:380-400 | the rest of `take` after whitespace, as written: a comment is skipped and `take` starts again |
| Deck.Lexer.TakeSymbol | cdeck/include/deck/deck.hpp:316-432 | one symbol lexed and retagged, as `Lexed` says for the code as written |
| Deck.Lexer.LexRaw | cdeck/include/deck/deck.hpp:316-408 | the character classes of `take` compute `Raw` as written: a string stops on its closing quote and leaves it unread |
| Deck.Lexer.LexRun | cdeck/include/deck/deck.hpp:345-406 | the `$`, `&`, string, number and identifier branches of `take` compute `Raw` as written, never moving backwards: `$` and `&` drop their sigil, a string runs to (not past) its closing quote, a non-comment word runs over visible characters (`LexRaw` has already dealt with NUL, the brackets and comments) |
| Deck.Lexer.SkipWhile | cdeck/include/deck/deck.hpp:312-314 | advances to the first position where the predicate fails, stopping at the NUL |
| Deck.NewLexer | cdeck/include/deck/deck.hpp:307-309 | the constructor primes `peek` with the first symbol, fails exactly when lexing it fails, and leaves the whole stream of the source pending |
| Deck.FlattenAllSnoc | cdeck/include/deck/deck.hpp:464-498 | the tape of a body grown by one expression grows by that expression's symbols |
| Deck.ScanErrors | cdeck/include/deck/deck.hpp:402-426 | a lexing error is one of the front end's messages |
| Deck.Group | cdeck/include/deck/deck.hpp:464-498 | `frame` and `quote`: the opener, the body and an END carrying the closer's text, built from exactly the opener, the body's symbols and the closer taken from the stream; the group ends at its first closer, since a well-formed body holds no leaf of the closer's kind; or the missing bracket's error |
| Deck.GroupBody | cdeck/include/deck/deck.hpp:472-474 | expressions until the closer or the terminator is next, none of them the closer itself, built from exactly the symbols they took from the stream |
| Deck.ParseIntrinsic | cdeck/include/deck/deck.hpp:500-510 | an intrinsic followed by an identifier becomes one symbol with the intrinsic's kind and the text of that identifier, the two being the next two symbols of the stream; a non-intrinsic is `expected an intrinsic` |
| Deck.Expression | cdeck/include/deck/deck.hpp:512-529 | a frame, a quote, an intrinsic or a symbol passed through (the symbol that was `peek`); always a well-formed item, every frame or quote in it ending at its first closer, built from exactly the symbols it took, and the lexer makes progress |
| Deck.Parse | cdeck/include/deck/deck.hpp:531-546 | a header with the first symbol's text, well-formed items (each frame and quote closed by its first closer, stray closers passed through at top level), then a footer; the items hold exactly the symbol stream of the source (`Stream(src, 0)`), so a source whose lexing stops at a `fatal` does not parse; errors are front-end messages |
| Deck.FirstCloserEnds | cdeck/include/deck/deck.hpp:464-480 | on `[ ] ]` the frame ends at its first `]` and the second `]` is a top-level leaf; a frame holding that first `]` as a leaf is not well-formed |
| X86.Initial | cdeck/include/deck/passes/x86-64.hpp:23-28 | a fresh environment defines exactly the eleven primitives and numbers no quote yet |
| X86.NatStr | cdeck/include/deck/passes/x86-64.hpp:177-185 | the decimal form of a label number: digits only, one digit exactly below 10, ending in the last digit |
| X86.NatStrInjective | cdeck/include/deck/passes/x86-64.hpp:177-185 | different numbers print differently |
| X86.QuoteLabelsDistinct | cdeck/include/deck/passes/x86-64.hpp:175-185 | two quotes with different numbers get different `__quote_` and `__quote_end_` labels |
| X86.PrimitiveLines | cdeck/include/deck/passes/x86-64.hpp:31-100 | a primitive prints one to four instructions, and a word prints `call word` exactly when it is not a primitive |
| X86.LeafStep | cdeck/include/deck/passes/x86-64.hpp:102-172 | a symbol fails exactly when it uses an undefined name or declares a defined one, with the source's message; otherwise it keeps the quote counter, only adds names and only appends lines |
| X86.ItemAt | cdeck/include/deck/passes/x86-64.hpp:174-198 | visiting an item moves forward, within the tape |
| X86.BlockAt | cdeck/include/deck/deck.hpp:567-578 | a block's walk ends at its END: as written on the END itself, fixed just past it; with no END it is `invalid tree` |
| X86.ItemFlat | cdeck/include/deck/passes/x86-64.hpp:102-206 | with the fixed walk, visiting an item prints what the in-order reading of its symbols prints |
| X86.FrameFlat | cdeck/include/deck/passes/x86-64.hpp:189-198 | the same for a frame: prologue, body, epilogue |
| X86.QuoteFlat | cdeck/include/deck/passes/x86-64.hpp:174-186 | the same for a quote, with its number taken before its body |
| X86.CloseFlat | cdeck/include/deck/passes/x86-64.hpp:182-197 | an END closes the innermost open frame or quote with its epilogue |
| X86.BlockFlat | cdeck/include/deck/deck.hpp:567-578 | the fixed walk of a body agrees with the in-order reading up to its END |
| X86.PassFlat | cdeck/include/deck/deck.hpp:581-590 | the fixed pass agrees with the in-order reading of the whole tape |
| X86.EmissionIsFlat | cdeck/include/deck/passes/x86-64.hpp:208-219 | fixed, the back end prints exactly the in-order reading of the tape |
| X86.FlatIds | cdeck/include/deck/passes/x86-64.hpp:175 | reading a tape numbers one quote per QUOTE symbol |
| X86.EmissionIds | cdeck/include/deck/passes/x86-64.hpp:175 | the back end numbers every quote of the tape, so their labels are distinct |
| X86.NodeWalk | cdeck/include/deck/deck.hpp:553-578 | on a parsed item the fixed walk never reports `invalid tree` and ends just past the item |
| X86.NodesWalk | cdeck/include/deck/deck.hpp:567-578 | on a parsed body it ends just past the body's END |
| X86.PassNodes | cdeck/include/deck/deck.hpp:581-590 | the pass over parsed items never reports `invalid tree` |
| X86.ParsedEmits | cdeck/include/deck/deck.hpp:531-546 | on anything the parser produces, the fixed back end fails only on a name error |
| X86.NestedIsParsed | cdeck/include/deck/deck.hpp:464-480 | the tape of `[ [ 1 ] 2 ]` is what the parser produces |
| X86.NestedAsWritten | cdeck/include/deck/deck.hpp:567-578 | as written, both frames are closed before `2` is pushed |
| X86.NestedFixed | cdeck/include/deck/deck.hpp:567-578 | fixed, `2` is pushed inside the outer frame, which is closed last |
| X86.Emitter.constructor | cdeck/include/deck/passes/x86-64.hpp:27 | the environment starts as `Initial` |
| X86.Emitter.Primitive | cdeck/include/deck/passes/x86-64.hpp:31-100 | appends exactly the primitive's lines |
| X86.Emitter.Impl | cdeck/include/deck/passes/x86-64.hpp:102-206 | x86_64_impl computes `ItemAt` of the walk as written: same state, same resume position (on a block's END), same error |
| X86.Emitter.Visitor | cdeck/include/deck/deck.hpp:552-562 | at the end of the tape nothing changes; otherwise one item is visited as `ItemAt` of the walk as written says |
| X86.Emitter.VisitBlock | cdeck/include/deck/deck.hpp:567-578 | computes `BlockAt` of the walk as written: the position of the closing END, or `invalid tree` |
| X86.Emitter.Pass | cdeck/include/deck/deck.hpp:581-590 | computes `PassAt` of the walk as written, stopping at the end of the tape or a terminator |
| X86.EmitX86 | cdeck/include/deck/passes/x86-64.hpp:208-219 | returns the tape unchanged, and the printed lines or the error of `EmissionAsWritten`, so nested blocks close early as `NestedAsWritten` shows |
| CLexer.StrnEqText | cdc/src/cdc.c:191-193 | over text without NUL, `strncmp(a, b, n) == 0` compares exactly the first n characters |
| CLexer.KwCmp | cdc/src/cdc.c:191-193 | `kw_cmp`: over text without NUL, the word matches exactly when it spells the keyword, length included |
| CLexer.TakeWhileAt | cdc/src/cdc.c:182-188 | `take_while` reports whether it took anything, takes only characters satisfying the condition, stops at the first one that does not or at the end, and passes a NUL only when the condition accepts it |
| CLexer.SkipFrom | cdc/src/cdc.c:414-419 | the skipping loop stops on a character that is neither whitespace nor the start of `#!` |
| CLexer.SkipStep | cdc/src/cdc.c:414-419 | one turn of that loop leaves the same stopping point |
| CLexer.SkipStop | cdc/src/cdc.c:414-419 | the loop stops when neither whitespace nor `#!` follows |
| CLexer.IdentAt | cdc/src/cdc.c:266-301 | `produce_ident` succeeds exactly on an identifier start, takes the longest run of identifier characters, and gives the token the keyword or IDENT kind of the whole word; on failure only `start` is set |
| CLexer.SymbolAt | cdc/src/cdc.c:303-316 | `produce_symbol` succeeds exactly on `#`, followed by the longest run of identifier characters |
| CLexer.WhileAt | cdc/src/cdc.c:318-329 | `produce_while` succeeds exactly when the first character satisfies the condition, and the token covers the run |
| CLexer.SigilFrom | cdc/src/cdc.c:335-384 | `produce_sigil` succeeds exactly when one of the sigils lies at the position, and takes the first one in source order |
| CLexer.SigilsNonEmpty | cdc/src/cdc.c:335-384 | every sigil is at least one character, so a sigil always makes progress |
| CLexer.NextAt | cdc/src/cdc.c:396-436 | `lexer_next`: EOF of width one at a NUL or at the end, otherwise a token starting after whitespace and comments, with producers tried in order; on failure the kind is NONE |
| CLexer.Lexer.constructor | cdc/src/cdc.c:386-394 | `lexer_create` starts at position 0 of the source |
| CLexer.Lexer.Take | cdc/src/cdc.c:146-151 | advances one character unless at the end, and reports whether that character is not NUL |
| CLexer.Lexer.TakeIf | cdc/src/cdc.c:154-157 | takes the next character only when it satisfies the condition |
| CLexer.Lexer.TakeStr | cdc/src/cdc.c:160-169 | takes the string exactly when it lies at the position inside the buffer |
| CLexer.Lexer.TakeWhile | cdc/src/cdc.c:182-188 | follows `TakeWhileAt` |
| CLexer.Lexer.TakeIfEq | cdc/src/cdc.c:196-199 | takes the next character only when it is the expected one |
| CLexer.Lexer.ProduceIdent | cdc/src/cdc.c:266-301 | follows `IdentAt` |
| CLexer.Lexer.ProduceSymbol | cdc/src/cdc.c:303-316 | follows `SymbolAt` |
| CLexer.Lexer.ProduceWhile | cdc/src/cdc.c:318-329 | follows `WhileAt` |
| CLexer.Lexer.ProduceInt | cdc/src/cdc.c:331-333 | an integer is a run of digits |
| CLexer.Lexer.ProduceSigil | cdc/src/cdc.c:335-384 | follows `SigilFrom` |
| CLexer.Lexer.Skip | cdc/src/cdc.c:414-419 | follows `SkipFrom` |
| CLexer.Lexer.LexerNext | cdc/src/cdc.c:396-436 | follows `NextAt` |
| CLexer.KeywordExact | cdc/src/cdc.c:280-298 | over text without NUL, each keyword kind is given exactly to its own word, and IDENT to every other word |
| CLexer.LetFoo | cdc/src/cdc.c:266-301 | `letfoo` is one identifier, not a keyword followed by a word |
| CLexer.ArrowFirst | cdc/src/cdc.c:338-340 | `->` is lexed as an arrow, never as a minus |
| CLexer.EofOnlyAtEnd | cdc/src/cdc.c:396-436 | input that ends in whitespace or a comment makes the next call fail instead of returning EOF |
| CLexer.TrailingSpace | cdc/src/cdc.c:396-436 | on `x ` the lexer returns `x` and then fails |
| DkLexer.BoundedStep | cdc/include/cdc/lexer.h:145-152 | the intended `dk_take_if`: takes exactly when a character remains and satisfies the condition |
| DkLexer.TakeIfAgrees | cdc/include/cdc/lexer.h:128-152 | the step as written agrees with the intended one except at the end of the source with a condition that accepts NUL, where it reports a take without moving |
| DkLexer.WhileAt | cdc/include/cdc/lexer.h:231-243 | `dk_produce_while`: the longest non-empty run of characters satisfying the condition, or failure with an empty NONE instruction where it started |
| DkLexer.StrAt | cdc/include/cdc/lexer.h:245-257 | `dk_produce_str`: succeeds exactly when `dk_take_str` takes the text (with its bound as written, or as intended) and then covers it; otherwise nothing moves |
| DkLexer.CommentAt | cdc/include/cdc/lexer.h:356-371 | `dk_produce_comment`: `#!` as `dk_take_str` takes it, and a non-empty rest of the line up to the newline or the end; when the rest is empty it fails after passing `#!` |
| DkLexer.IdentAt | cdc/include/cdc/lexer.h:259-309 | `dk_produce_ident`: succeeds exactly on a letter, takes the longest run of identifier characters and classifies the whole word |
| DkLexer.SymbolAt | cdc/include/cdc/lexer.h:311-324 | `dk_produce_symbol`: succeeds exactly on `#`, followed by the longest run of identifier characters |
| DkLexer.SigilFrom | cdc/include/cdc/lexer.h:330-350 | succeeds exactly when `dk_take_str` takes one of the remaining sigils at the position |
| DkLexer.SigilSpan | cdc/include/cdc/lexer.h:330-350 | the sigil taken is the first that `dk_take_str` takes, in source order, and its instruction spans exactly its text |
| DkLexer.NextAt | cdc/include/cdc/lexer.h:382-408 | `dk_lexer_take` tries whitespace, comment, identifier, symbol, number and sigil in turn; the instruction starts at or after the position and ends where the pointer is left; only a comment that failed leaves the pointer moved (past `#!`, as `dk_take_str` takes it) |
| DkLexer.Lexer.constructor | cdc/include/cdc/lexer.h:96-103 | `dk_lexer_create`: at the start of the source with an empty NONE lookahead |
| DkLexer.Lexer.Take | cdc/include/cdc/lexer.h:136-142 | hands back the next character, or NUL at the end without moving |
| DkLexer.Lexer.TakeIf | cdc/include/cdc/lexer.h:145-152 | `dk_take_if` as written |
| DkLexer.Lexer.TakeIfBounded | cdc/include/cdc/lexer.h:145-152 | `dk_take_if` as intended |
| DkLexer.Lexer.TakeIfc | cdc/include/cdc/lexer.h:156-163 | takes the next character only when it is the given one |
| DkLexer.Lexer.TakeStr | cdc/include/cdc/lexer.h:165-179 | `dk_take_str` as written: takes the text only when it ends strictly before the end of the source |
| DkLexer.Lexer.TakeStrFixed | cdc/include/cdc/lexer.h:165-179 | `dk_take_str` as intended: takes the text exactly when it lies at the position |
| DkLexer.Lexer.TakeWhile | cdc/include/cdc/lexer.h:181-189 | passes the longest run satisfying the condition and reports whether it passed anything (with the bounded step; see Left out) |
| DkLexer.Lexer.ProduceIf | cdc/include/cdc/lexer.h:217-229 | `dk_produce_if`: one character satisfying the condition, or an empty NONE instruction |
| DkLexer.Lexer.ProduceWhile | cdc/include/cdc/lexer.h:231-243 | follows `WhileAt` |
| DkLexer.Lexer.ProduceStr | cdc/include/cdc/lexer.h:245-257 | follows `StrAt` over `dk_take_str` as written |
| DkLexer.Lexer.ProduceIdent | cdc/include/cdc/lexer.h:259-309 | follows `IdentAt` |
| DkLexer.Lexer.ProduceSymbol | cdc/include/cdc/lexer.h:311-324 | follows `SymbolAt` |
| DkLexer.Lexer.ProduceNumber | cdc/include/cdc/lexer.h:326-328 | a number is a run of digits |
| DkLexer.Lexer.ProduceSigil | cdc/include/cdc/lexer.h:330-350 | tries the sigils in source order over `dk_take_str` as written, as `SigilFrom` and `SigilSpan` describe |
| DkLexer.Lexer.ProduceWhitespace | cdc/include/cdc/lexer.h:352-354 | a run of whitespace |
| DkLexer.Lexer.ProduceComment | cdc/include/cdc/lexer.h:356-371 | follows `CommentAt` over `dk_take_str` as written |
| DkLexer.Lexer.LexerPeek | cdc/include/cdc/lexer.h:375-378 | always succeeds with the lookahead |
| DkLexer.Lexer.LexerTake | cdc/include/cdc/lexer.h:382-408 | at the end it succeeds and changes nothing; otherwise it lexes as `NextAt` says with `dk_take_str` as written, hands back the old lookahead and stores the new instruction, or fails and keeps the lookahead |
| DkLexer.KeywordExact | cdc/include/cdc/lexer.h:276-306 | each keyword kind is given exactly to its own word, and IDENT to every other word |
| DkLexer.LetFoo | cdc/include/cdc/lexer.h:270-274 | maximal munch: `letfoo` is one identifier, `let foo` starts with the keyword |
| DkLexer.ArrowFirst | cdc/include/cdc/lexer.h:334 | where `dk_take_str` takes `->` (as written or as intended), it is lexed as an arrow, never as a minus |
| DkLexer.TakeStrBound | cdc/include/cdc/lexer.h:168-170 | as written, the text is taken exactly when it matches and does not end at the end of the source |
| DkLexer.LonePlus | cdc/include/cdc/lexer.h:168-170 | as written, a source that is just `+` is refused by `dk_take_str` and `dk_lexer_take` fails on it; with the intended bound it is one ADD |
| DkLexer.CommentAtEnd | cdc/include/cdc/lexer.h:145-152 | as written, once `#!x` is consumed the comment predicate accepts the NUL that `dk_peek` returns at the end, so `dk_take_if` reports a take without moving and the loop in `dk_take_while` repeats the same step forever; with the bounded step the comment ends at the end of the source |
| Basename.LastSlash | cdc/include/cdc/util.h:83 | `strrchr(path, '/')`: the position of the last '/', if any; none exactly when the path has no '/' |
| Basename.Component | cdc/include/cdc/util.h:81-93 | the last path component: a suffix without '/', preceded by '/' when shorter than the path |
| Basename.CString | cdc/include/cdc/util.h:78-102 | the string a zero-terminated buffer holds: the bytes before the first '\0' |
| Basename.CStringOf | cdc/include/cdc/util.h:89 | bytes without '\0' followed by zero fill read back as exactly those bytes |
| Basename.ZeroFill | cdc/include/cdc/util.h:79 | `memset(out, 0, size)`: the first `size` cells become '\0', the rest of the buffer is untouched |
| Basename.FindLastSlash | cdc/include/cdc/util.h:83 | the backward scan finds what `LastSlash` specifies |
| Basename.CopyPrefix | cdc/include/cdc/util.h:99 | `strncpy` into a zeroed buffer: the first `n` source bytes, then the zeros that were there |
| Basename.Basename | cdc/include/cdc/util.h:78-102 | `dk_basename` as written: ENAMETOOLONG exactly when the last component (or the whole path without '/') is longer than `size`, the buffer then all zeros; otherwise the buffer holds what `strncpy(out, last + 1, size - len)` leaves; nothing past `size` changes |
| Basename.BasenameFixed | cdc/include/cdc/util.h:98 | the commented-out `memcpy` instead: on success the buffer holds the whole last component, zero-padded |
| Basename.FixedIsComponent | cdc/include/cdc/util.h:98 | the fixed buffer, read as a C string within the buffer, is exactly the last component; a NUL follows it inside the buffer exactly when the component is shorter than `size` |
| Basename.AsWrittenWhole | cdc/include/cdc/util.h:99 | as written, the component comes out whole if and only if the path has no '/' or `2 * len <= size` |
| Basename.AsWrittenTruncates | cdc/include/cdc/util.h:99 | "/abc" with size 4 yields "a" instead of "abc" |

## Left out

- Input and output are not modelled. That covers reading the program from a file or standard input (`read_file`, `read_stdin`), `main`, the command-line handling and the driver's `report_handler`.
- Logging is not modelled: `CDC_LOG`/`DECK_LOG`, the `printf` in `lexer_next`, the dead pass's dump of the inverted graph and the x86 emitter's symbol-table log.
- The dead pass logs one line per unreferenced name. The model returns those names instead.
- The printers `pretty_print`, `dot`, `printer` and `dumper` are not part of this model. Neither are `alloc.h`, `str.h` or `parser.h`.
- `dk_strncmp` (used by `dk_produce_ident`, `cdc/include/cdc/lexer.h:277-299`) is not part of this model. Keyword classification treats it as an exact comparison of the whole word with the keyword, as the comment at lines 270-274 says is intended.
- Several scans run past the end of the buffer in the source: the deck string scan that looks for the closing `"`, and `strncmp` in `take_str`. In the model, scans stop at the end of the source, and a match is looked for only inside the buffer.
- Reading past `|src|` in the deck lexer yields the terminating NUL.
- The C code's undefined behaviour beyond the end of the buffer is not modelled.
- A thrown `Report` or a `fatal` call ends the compilation. The model returns the error and drops any partial output. It does not model the partially rewritten tape that the exception leaves behind.
- Iterators that go stale when `std::vector` reallocates are not modelled. The tape is a value, and indices stay valid.
- Aliasing between the tape and the iterators that point into it is not modelled.
- Verify.VerifyNodePreserves: "only identifier tags change" is stated modulo the IDENT/ADDR/BIND distinction (`Erase`). The model does not say which of the three each identifier becomes; `VerifyVisit` does, one item at a time.
- Quotes.Run: requires a tape that does not start with a QUOTE. `std::rotate` would otherwise be given a middle past its last, which is undefined behaviour. The parser always opens the tape with PROGRAM.
- CLexer.Lexer.TakeStr: `strncmp` may compare bytes past `len`. The model matches only inside the buffer.
- Views.HashBytes: follows the source in sign-extending bytes of 0x80 and above before the XOR (`Views.FnvHighByte`). This is the documented behaviour of the code, not a different hash.
- DkLexer.Lexer.TakeWhile: steps with the bounded `dk_take_if`. With a condition that accepts NUL (only `dk_is_comment`), the loop of the source never returns once it reaches the end of the source; the model stops there instead.
- DkLexer.CommentAt: a comment that runs to the end of the source ends there. The source's `dk_take_while(lx, dk_is_comment)` never returns in that case (`DkLexer.CommentAtEnd`).
- DkLexer.Lexer.ProduceComment: as for `DkLexer.CommentAt`, the non-terminating case at the end of the source is not modelled.
- DkLexer.NextAt: a comment at the end of the source is lexed, where the source never returns (as for `DkLexer.CommentAt`).
- DkLexer.Lexer.LexerTake: a comment at the end of the source is lexed, where the source never returns (as for `DkLexer.CommentAt`).
- CdcParser.Parse: the converse is not stated. The contract does not say that every grammatical token stream parses, only that what parses is the source's token stream.
- Deck.Parse: the converse is not stated. The contract does not say that every well-bracketed symbol stream parses.
- Machine integers are unbounded, except for the 64-bit FNV-1a hash, whose wrap-around is written out. The generated-name counter and the positions do not overflow for a source that fits in memory. In `dk_basename`, `size - len` is only computed after the check `len <= size`.

## Findings

| source | as written | input that shows it | evidently intended | confidence | as-written member | corrected member |
|---|---|---|---|---|---|---|
| cdc/include/cdc/util.h:99 | `strncpy(out, last + 1, size - len)` copies at most `size - len` bytes of a component of `len` bytes | path "/abc" with `size` 4 leaves "a" in the buffer | the whole component, as the commented-out `memcpy` at line 98 copies | not executed | Basename.AsWrittenTruncates | Basename.FixedIsComponent |
| cdeck/include/deck/deck.hpp:363-370 | the string branch stops on the closing `"` and leaves it unread | `"a"` lexes as the string "a" and then a string starting at the closing quote, whose scan for a further `"` runs past the terminating NUL (the model stops it at the end of the source, giving an empty string) | pass the closing quote, so the next symbol starts after it | not executed | Deck.StringNotClosed | Deck.StringResumes |
| cdeck/include/deck/deck.hpp:567-578 | `visit_block` returns the position of the END rather than one past it, and the frame and quote cases of the x86-64 emitter (x86-64.hpp:174-198) do not step over it | the tape of `[ [ 1 ] 2 ]` closes the outer frame before `2` is pushed | the END is consumed by the block it closes, so every frame closes after its own body | not executed | X86.NestedAsWritten | X86.NestedFixed |
| cdc/include/cdc/lexer.h:168 | `dk_take_str` refuses a match when `ptr + length >= end` | the source "+" is not lexed as ADD | refuse only when `ptr + length > end` | not executed | DkLexer.LonePlus | DkLexer.Lexer.TakeStrFixed |
| cdc/include/cdc/lexer.h:145-152 | `dk_take_if` tests the condition on the NUL that `dk_peek` returns at the end, and reports a take without moving | the comment `#!x` at the end of the source: `dk_take_while(lx, dk_is_comment)` never stops | no take at the end of the source | not executed | DkLexer.CommentAtEnd | DkLexer.Lexer.TakeIfBounded |
| cdeck/passes/reorder.hpp:51-62 | an ADDR of a function not yet seen walks on from that function's opener to the end of the program | `f` addresses `g` and `h` addresses `f` (in the order f, g, h): the new order is g, h, f, with `h` before the `f` it addresses | visit only the addressed function, so that every function follows the ones it addresses | not executed | ReorderDfs.AsWrittenNotTopo | ReorderDfs.DfsRun |
