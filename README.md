# Beleg front end: source map, AST arena, parser cursor, lexer, diagnostic counters and VFS node table

This project models the sequential, index-based core of the Beleg compiler's
front end in Dafny and proves properties of that model.

- **Source map** (`SourcePositions`, `source_map.dfy`)
  - Each `SourceFile` builds a table of line starts once. It converts local
    byte offsets to 1-based lines and 0-based columns and back, and it slices
    out lines and spans.
  - `SourceMap` lays out the files it is given back to back in one global
    byte space, in the order they were added. Adding a name that is already
    present returns that file's id and changes nothing.
  - The map resolves global positions to locations and locations back to
    positions. It extracts span text that may run across several files, and
    it formats locations and spans.
- **AST arena** (`AstArena`, `ast.dfy`)
  - Nodes live in parallel sequences of kinds, spans and `childrenStart`
    entries, indexed from 1; index 0 is a placeholder.
  - A fourth sequence, `childrenEnd`, is state of the model only: the source
    has no such field. It records where each node's slots end, so that the
    corrected `GetChildren` answers exactly the slots laid out for the node
    (see Findings).
  - All children go into one flat `children` sequence. A multi-child group
    is stored as a block `[count, index, ...]`, and the parent's slot holds
    the offset of `count`.
  - `GetNodeType` classifies every node kind by its child layout.
- **Parser cursor engine** (`Parse`, `parse.dfy`)
  - A token sequence, a cursor and a stack of saved cursors.
  - Token access is total: it returns the synthetic `Sof`/`Eof` tokens
    instead of failing.
  - A rule's span is measured from the cursor saved at the top of the stack.
- **Lexer** (`Lex`, `lex.dfy`). A cursor-driven scanner:
  - operators are matched longest first;
  - identifiers are maximal runs, and a run is a keyword only when the whole
    run matches one exactly;
  - numbers are classified by a `0b`/`0o`/`0x` prefix, a `.` and an `e`;
  - in string and char literals, `\` skips the byte after it.
- **Diagnostic counters** (`Diagnostics`, `diagnostics.dfy`). `can_emit`
  and the counting part of `emit` keep the error and warning counts under
  their configured caps.
- **VFS node table** (`VirtualFs`, `vfs.dfy`). This is the in-memory part
  only:
  - dense node ids;
  - path resolution by walking children by name, including splitting a path
    string on `/`;
  - the project-relative path of a node;
  - the choice of entry file by directory kind;
  - reading and writing the source-file id, on file nodes only.

`Common` (`common.dfy`) holds `Option`, the `u32` range, explicit 32-bit
wrap-around (`Wrap`), and decimal rendering of naturals together with its
inverse.

How the source's forms are kept:

- Objects whose fields the source updates are Dafny classes with `modifies`
  clauses: `SourceMap`, `Ast`, `NodeBuilder`, `Parser`, `Lexer`,
  `DiagCtxt`, `DiagBuilder` and `Vfs`.
- Loops in the source stay loops, each proved against a function of the
  state it reads. Examples are the line-start scan, the cross-file span-text
  loop, the per-child layout loop of `add_node`, `peek`'s window, the
  lexer's scanning loops, path splitting, children lookup and the parent
  walk.
- Read-only members are functions of the fields they read. Their meaning is
  also stated as module-level functions and lemmas.
- Every position the source keeps in a `Span` or in the parser's start
  position is `u32`. The model wraps these `u32` computations explicitly:
  - `Span::len`;
  - `Span::with_offset`;
  - `make_span`'s sums;
  - `format_span`'s `end - 1`;
  - the `column + 1` that `format_location` and `format_span` print;
  - `location_to_byte_pos`, in the as-written member of Findings only.
- The callers `lookup_byte_pos`, `make_span`, `get_node` and `next` use the
  corrected member of each finding, so they do not reproduce the source's
  result on the inputs that show the bug. "## Left out" names each one.
- Other positions are unbounded naturals: `Location` lines and columns, the
  source map's global positions and file ids, the lexer's cursor and token
  bounds, the parser's cursor, the AST's node and slot indices, and the
  VFS's node ids. "## Left out" lists each one.

## Model

| member | source | states |
|---|---|---|
| SourcePositions.FileIdOrder | src/source_map/source_map.hh:20-28 | `FileId` ordering is a strict total order and coincides with the order of the ids |
| SourcePositions.Span.Len | src/source_map/source_map.hh:60-62 | the length is `end - start` for a valid span, and wraps modulo 2^32 otherwise |
| SourcePositions.Span.WithOffset | src/source_map/source_map.hh:68-70 | each end moves by the offset when the sum fits in 32 bits, and loses 2^32 when it does not |
| SourcePositions.SpanContainment | src/source_map/source_map.hh:56-66 | containment is exactly `start <= pos < end`; the end itself is never contained; a containing span is valid and non-empty; an empty span contains nothing |
| SourcePositions.WithOffsetShifts | src/source_map/source_map.hh:68-70 | shifting keeps the length and validity, and shifts containment by the offset |
| SourcePositions.NewlineEnds | src/source_map/source_map.cc:11-20 | every entry pushed for a newline lies in `1..|content|` |
| SourcePositions.LineStarts | src/source_map/source_map.cc:11-20 | the table starts with 0 and never passes the end of the content |
| SourcePositions.NewlineEndsFacts | src/source_map/source_map.cc:11-20 | the newline entries are strictly increasing, each follows a newline, and every newline at `i` has the entry `i + 1` |
| SourcePositions.LineStartsFacts | src/source_map/source_map.cc:11-20 | the line-start table is 0 followed by exactly one entry `i + 1` per newline at `i`, strictly increasing, one per line |
| SourcePositions.ComputeLineStarts | src/source_map/source_map.cc:11-20 | the scanning loop builds exactly that table |
| SourcePositions.NewSourceFile | src/source_map/source_map.cc:6-9 | a new file keeps name, content and start position and carries the table of its content |
| SourcePositions.LastAtMost | src/source_map/source_map.cc:35-43 | the search returns the greatest table index whose entry is at most the position |
| SourcePositions.ByteToLocation | src/source_map/source_map.cc:22-44 | inside the content, the line is that of the greatest line start at or before the position and the column is the distance from it; at or past the end, the result clamps to the last line at the end of the content |
| SourcePositions.LocationToBytePos | src/source_map/source_map.cc:46-70 | (corrected) a location converts exactly when the line exists and `start + column` does not pass the next line start (or the end on the last line); the result is `start + column` |
| SourcePositions.LocationToBytePosAsWritten | src/source_map/source_map.cc:46-70 | (as written, with the `u32` sum) any accepted position lies inside the content on an existing line |
| SourcePositions.ColumnOverflowCounterexample | src/source_map/source_map.cc:53 | on "a\nb", line 2 with column 2^32-1 is accepted as written, giving byte 1, which lies on line 1; the corrected conversion rejects it |
| SourcePositions.AsWrittenAgreesWithoutOverflow | src/source_map/source_map.cc:46-70 | when the sum does not overflow, both conversions accept and reject the same locations and give the same position |
| SourcePositions.ByteLocationRoundTrip | src/source_map/source_map.cc:22-70 | every byte inside the content survives the trip to a location and back |
| SourcePositions.EofLocationRoundTrip | src/source_map/source_map.cc:24-33 | a position at or past the end maps to a location that converts back to the end of the content |
| SourcePositions.LocationByteRoundTrip | src/source_map/source_map.cc:22-70 | a location that converts to a byte inside its own line converts back to the same location |
| SourcePositions.GetLine | src/source_map/source_map.cc:72-93 | a line exists exactly for `1 <= n <= number of line starts` |
| SourcePositions.GetLineShape | src/source_map/source_map.cc:72-93 | line `n` is the text from its line start up to the next newline or the end, and contains no newline |
| SourcePositions.LineEnd | src/source_map/source_map.cc:72-93 | line `n` ends just before the next line start or at the end of the content, with no newline before that point and a newline or the end at it |
| SourcePositions.FileSpanText | src/source_map/source_map.cc:95-101 | the local text exists exactly for a valid span ending inside the content, and is the covered slice |
| SourcePositions.ConcatAt | src/source_map/source_map.cc:103-121 | in the back-to-back layout, each file's content sits at its start position in the global text |
| SourcePositions.EndsBeforeLaterStart | src/source_map/source_map.cc:103-121 | an earlier file ends at or before a later file's start |
| SourcePositions.FileContaining | src/source_map/source_map.cc:162-175 | the search returns the first file whose range holds the position, or none when no file does |
| SourcePositions.HoldersUnique | src/source_map/source_map.cc:162-175 | in the layout, at most one file holds any position |
| SourcePositions.SomeFileHolds | src/source_map/source_map.cc:162-175 | every position before the end of the last file is held by some file |
| SourcePositions.ContainingIffInside | src/source_map/source_map.cc:162-175 | a containing file exists exactly for positions before the end of the last file |
| SourcePositions.LocationOf | src/source_map/source_map.cc:162-175 | a resolved location names a file whose range holds the position |
| SourcePositions.CoverStep | src/source_map/source_map.cc:192-229 | one iteration of the span-text loop extends the covered prefix and the result by that file's overlap with the span |
| SourcePositions.CoverFile | src/source_map/source_map.cc:204-224 | the loop body keeps the covered-prefix invariant across one file |
| SourcePositions.CoverDone | src/source_map/source_map.cc:192-229 | once every file is visited, the loop's answer is `SpanTextOf` |
| SourcePositions.NameIndexCorrect | src/source_map/source_map.cc:103-121 | the name index holds a name exactly when some file carries it, and maps it to such a file |
| Common.DecimalRoundTrip | src/source_map/source_map.cc:264-274 | decimal rendering of a natural is all digits and reads back to the same value |
| SourcePositions.SourceMap.constructor | src/source_map/source_map.hh:111 | an empty map: no files, no names, next start 0 |
| SourcePositions.SourceMap.AddFile | src/source_map/source_map.cc:103-121 | an existing name returns its id and changes nothing; a new file gets the next id, starts at the old next start, which grows by its length; the layout stays contiguous |
| SourcePositions.SourceMap.GetFile | src/source_map/source_map.cc:146-151 | present exactly for an id below the number of files, and then that file |
| SourcePositions.SourceMap.GetFileId | src/source_map/source_map.cc:153-160 | present exactly when some file has the name, and then the id of such a file |
| SourcePositions.SourceMap.LookupLocation | src/source_map/source_map.cc:162-175 | the scanning loop computes `LocationOf`, which exists exactly for positions before the next start |
| SourcePositions.SourceMap.LookupBytePos | src/source_map/source_map.cc:177-190 | (corrected) present exactly when the file exists and the corrected conversion succeeds; the value is then the file's `start_pos` plus the in-file byte position, and lies inside the global layout |
| SourcePositions.SourceMap.GetSpanText | src/source_map/source_map.cc:192-229 | the loop over files, threading the covered end, computes `SpanTextOf`: none for an inverted span or a gap, else the covered slices in order |
| SourcePositions.SourceMap.GetLineAtLocation | src/source_map/source_map.cc:231-239 | present exactly when the file and the line exist, and then that file's line |
| SourcePositions.SourceMap.MakeSpan | src/source_map/source_map.cc:241-262 | (corrected) the empty span for an unknown file or location, else the pair of positions from the corrected conversion, each shifted by the file start with the sum wrapped in 32 bits, and exactly the shifted positions when neither sum overflows |
| SourcePositions.SourceMap.FormatLocation | src/source_map/source_map.cc:264-274 | "<unknown>" for an unknown file, else "name:line:column" with the 1-based column `column + 1` wrapped in 32 bits |
| SourcePositions.SourceMap.SameLineRendering | src/source_map/source_map.cc:286-293 | a span on one line of one file renders as the start location and the end column |
| SourcePositions.SourceMap.FormatSpan | src/source_map/source_map.cc:276-300 | a rendering exists exactly when the start and `end - 1` (in `u32`) resolve; it is the two locations, compacted on one line |
| SourcePositions.LocationOfCharacterized | src/source_map/source_map.cc:162-175 | a position resolves exactly when it lies before the end of the last file, into the unique file holding it, at its local offset |
| SourcePositions.FileBoundaryBelongsToNextFile | src/source_map/source_map.cc:162-175 | the end of one file is line 1, column 0 of the next non-empty file |
| SourcePositions.FirstByteIsLineOne | src/source_map/source_map.cc:22-44 | the first byte of a non-empty content is line 1, column 0 |
| SourcePositions.LookupRoundTrip | src/source_map/source_map.cc:162-190 | a resolved location converts back to the local offset of the position |
| SourcePositions.SpanTextInsideFile | src/source_map/source_map.cc:192-229 | a span inside one file has that file's local slice as its text |
| SourcePositions.LookupBytePosInvertsLocation | src/source_map/source_map.cc:162-190 | `lookup_byte_pos` inverts `lookup_location` on every resolvable global position |
| SourcePositions.MakeSpanCoversText | src/source_map/source_map.cc:241-262 | the span made from two locations has the text between them |
| SourcePositions.FormatLocationReadsBack | src/source_map/source_map.cc:264-274 | a formatted location parses back into the file name, the line and the printed column; that column is `column + 1`, except that column 2^32-1 prints as 0 |
| AstArena.NoChildOnly | src/ast/ast.cc:3-136 | a kind with no child is a literal, identifier, `self`, `null`, the bare range, or one of the two kinds without a case |
| AstArena.LeafKinds | src/ast/ast.cc:3-136 | every literal, identifier, `self`, `null` and bare-range kind, and every kind without a case, has no child |
| AstArena.SingleChildOnly | src/ast/ast.cc:27-50 | a kind with one child is a prefix operator, a type constructor, a half-open range or a one-operand statement |
| AstArena.SingleChildKinds | src/ast/ast.cc:27-50 | every prefix operator, type constructor, half-open range and one-operand statement has one child |
| AstArena.DoubleChildrenOnly | src/ast/ast.cc:53-88 | a kind with two children is a binary operator, an assignment or one of the listed two-part forms |
| AstArena.BinaryKinds | src/ast/ast.cc:53-88 | every binary operator, assignment and listed two-part form has two children |
| AstArena.TripleChildrenOnly | src/ast/ast.cc:90-96 | a kind with three children is a declaration, `if`, `while` or a guarded or bound pattern |
| AstArena.TripleKinds | src/ast/ast.cc:90-96 | every declaration, `if`, `while` and guarded or bound pattern has three children |
| AstArena.QuadrupleChildrenOnly | src/ast/ast.cc:98-100 | only `for` has four children |
| AstArena.QuadrupleKinds | src/ast/ast.cc:98-100 | `for` has four children |
| AstArena.MultiChildrenOnly | src/ast/ast.cc:102-111 | a kind that is one list is a list, tuple, object, block, list pattern, `when` or file scope |
| AstArena.ListKinds | src/ast/ast.cc:102-111 | every list, tuple, object, block, list pattern, `when` and file scope is one list of children |
| AstArena.SingleWithMultiChildrenOnly | src/ast/ast.cc:113-119 | a kind with a callee and a list is one of the four call kinds |
| AstArena.CallKinds | src/ast/ast.cc:113-119 | every call kind is a callee followed by a list |
| AstArena.FunctionDefChildrenOnly | src/ast/ast.cc:121-123 | only a function definition has the function layout |
| AstArena.FunctionDefKinds | src/ast/ast.cc:121-123 | a function definition has the function layout |
| AstArena.TypeDefChildrenOnly | src/ast/ast.cc:124-129 | only struct, enum, union and module definitions have the type layout |
| AstArena.TypeDefKinds | src/ast/ast.cc:124-129 | struct, enum, union and module definitions have the type layout |
| AstArena.TypeAliasChildrenOnly | src/ast/ast.cc:130-132 | only aliases and new types have the alias layout |
| AstArena.TypeAliasKinds | src/ast/ast.cc:130-132 | aliases and new types have the alias layout |
| AstArena.KindsByLayout | src/ast/ast.cc:3-136 | every used layout is held by its listed kinds only, and the layouts of unparsed constructs by none |
| AstArena.LayoutOfKind | src/ast/ast.cc:3-136 | each of the ten used layouts is held by exactly its listed kinds |
| AstArena.GetNodeType | src/ast/ast.cc:3-136 | no kind gets one of the nine layouts of constructs the front end does not parse (which layout each kind gets is `LayoutOfKind`) |
| AstArena.NodeBuilder.constructor | src/ast/ast.hh:223-224 | a builder with the kind, the span and no children |
| AstArena.NodeBuilder.AddSingleChild | src/ast/ast.hh:226-229 | appends one single child and keeps kind and span |
| AstArena.NodeBuilder.AddMultipleChildren | src/ast/ast.hh:231-235 | appends one list child and keeps kind and span |
| AstArena.NodeBuilder.WithSpan | src/ast/ast.hh:237-240 | replaces only the span |
| AstArena.NodeBuilder.WithChildren | src/ast/ast.hh:242-245 | replaces only the child list |
| AstArena.NodeBuilder.WithNodeKind | src/ast/ast.hh:247-250 | replaces only the kind |
| AstArena.Encode | src/ast/ast.hh:288-303 | one slot per builder child |
| AstArena.MultiSlice | src/ast/ast.hh:366-382 | a slice exists exactly when `0 < r < |children|` and the block fits; it is the `count` entries after `r` |
| AstArena.EncodeRoundTrip | src/ast/ast.hh:292-301 | after layout, each slot denotes its builder child: a single index, or the offset of a block whose slice is the list, in order |
| AstArena.MultiSliceStable | src/ast/ast.hh:305-311 | appending to the flat sequence leaves every existing block's slice unchanged |
| AstArena.LayOutChildren | src/ast/ast.hh:288-303 | the per-child loop appends exactly the encoded blocks and returns exactly the encoded slots |
| AstArena.AppendKeepsLaid | src/ast/ast.hh:305-318 | appending a node whose run starts at the old end keeps the runs ordered and in bounds |
| AstArena.SlotsOf | src/ast/ast.hh:322-335 | empty for the placeholder and unknown indices, else a run of the node's length |
| AstArena.SlotsStable | src/ast/ast.hh:305-318 | appending a node leaves every earlier node's slots unchanged |
| AstArena.Ast.constructor | src/ast/ast.hh:277-283 | only the placeholder node `Invalid` with an empty span, the placeholder child 0, root 0 |
| AstArena.Ast.AddNode | src/ast/ast.hh:286-319 | returns the old node count; appends the kind and span; only appends to the children; the new node's children are its slots, in builder order; earlier nodes' children are unchanged |
| AstArena.Ast.GetChildren | src/ast/ast.hh:322-335 | (corrected) empty for index 0 or past the end, else exactly the node's own slots |
| AstArena.Ast.GetChildrenAsWritten | src/ast/ast.hh:322-335 | (as written) empty for index 0 or past the end; for the last node it agrees with the corrected view, and for an earlier node exactly when the next node's slots start where this node's end, that is, when no list block lies between them |
| AstArena.Ast.GetNodeKind | src/ast/ast.hh:338-343 | present exactly for `0 < idx < |nodes|`, and then the stored kind |
| AstArena.Ast.GetSpan | src/ast/ast.hh:358-363 | present exactly for `0 < idx < |nodes|`, and then the stored span |
| AstArena.Ast.GetNode | src/ast/ast.hh:346-355 | (corrected) present exactly when the kind is, and then agrees with the kind, span and corrected children getters |
| AstArena.Ast.GetMultiChildSlice | src/ast/ast.hh:366-382 | the block slice of the flat sequence |
| AstArena.Ast.SetRoot | src/ast/ast.hh:385-387 | sets the root and nothing else |
| AstArena.ParameterListCounterexample | src/ast/ast.hh:328-331 | with a function node added after three leaves, name node 3's children as written are `[2, 1, 2]` (the function's parameter block and slots), while it has none |
| AstArena.AddLeaf | src/ast/ast.hh:286-319 | adding a childless node appends its kind and an empty run and lays out no slot |
| AstArena.LeafArena | src/ast/ast.hh:305-318 | three leaves give node kinds `[Invalid, Id, Id, Id]`, one start per node, and no new child slots |
| AstArena.FunctionBuilder | src/ast/ast.hh:226-235 | the function builder holds its name and then its parameter list |
| AstArena.ParameterListArena | src/ast/ast.hh:322-382 | on the arena, the name node's children are `[2, 1, 2]` as written and `[]` corrected, and the parameter block reads `[1, 2]` |
| Parse.Pushed | src/parse/parse.cc:47-49 | `enter` puts the cursor on top of the stack |
| Parse.Popped | src/parse/parse.cc:51-55 | `exit` drops one entry, and leaves an empty stack empty |
| Parse.EnterExitRestores | src/parse/parse.cc:4-10 | an `exit` undoes the `enter` before it |
| Parse.SpanFrom | src/parse/parse.cc:128-142 | the empty span for an empty stack |
| Parse.Parser.constructor | src/parse/parse.cc:22-28 | cursor 0, stack `[0]` (degree 1), and a fresh arena holding only the placeholder |
| Parse.Parser.Enter | src/parse/parse.cc:47-49 | pushes the cursor and leaves it unchanged |
| Parse.Parser.Exit | src/parse/parse.cc:51-55 | pops when non-empty and leaves the cursor unchanged |
| Parse.Parser.CurrentDegree | src/parse/parse.cc:153-155 | the depth of the stack |
| Parse.Parser.Peek | src/parse/parse.cc:61-72 | the window loop answers true exactly when the window ends before the last token and every kind matches; nothing changes |
| Parse.Parser.EatToken | src/parse/parse.cc:74-84 | consumes one token exactly when one remains and has the kind; otherwise nothing moves |
| Parse.Parser.EatTokens | src/parse/parse.cc:86-91 | the cursor becomes `min(cursor + n, size)` |
| Parse.Parser.NextToken | src/parse/parse.cc:93-98 | returns the token under the cursor and advances, or the synthetic `Eof` without moving; the cursor stays in range |
| Parse.Parser.PeekNextToken | src/parse/parse.cc:100-105 | the token at the cursor, read-only |
| Parse.Parser.CurrentToken | src/parse/parse.cc:107-112 | the last consumed token, read-only |
| Parse.Parser.PreviousToken | src/parse/parse.cc:121-126 | the token before the cursor, read-only |
| Parse.Parser.GetToken | src/parse/parse.cc:114-119 | the token at an index, read-only |
| Parse.Parser.CurrentSpan | src/parse/parse.cc:128-142 | the span of the innermost open rule |
| Parse.Parser.NextTokenSpan | src/parse/parse.cc:144-151 | the span of the token at the cursor, both ends shifted by the file start in 32 bits; the empty span past the end |
| Parse.Parser.TryFileScope | src/parse/parse.cc:158-168 | adds one `FileScope` node whose span is the current span inside its own guard; it writes no child slot and the new node has no children; cursor and stack are restored |
| Parse.Parser.Parse | src/parse/parse.cc:30-38 | installs the new `FileScope` node as the root; the node's span is the current span of its guard, it has no children and no child slot is written |
| Parse.TokenOrEof | src/parse/parse.cc:100-105 | the token at the index, or `Eof` past the end |
| Parse.CurrentTokenAt | src/parse/parse.cc:107-112 | `tokens[cursor - 1]` for `0 < cursor <= size`, else `Sof` |
| Parse.PreviousTokenAt | src/parse/parse.cc:121-126 | `tokens[cursor - 1]` after the start, `Sof` at it |
| Parse.NextTokenSpanAt | src/parse/parse.cc:144-151 | past the end the empty span; otherwise both ends of the token at the cursor shifted by the file start and wrapped in 32 bits, exactly shifted when nothing overflows |
| Parse.CurrentSpanOfRule | src/parse/parse.cc:128-142 | inside the sequence, the span runs from the rule's first token to the last consumed token, shifted by the file start |
| Parse.CurrentSpanEmptyRule | src/parse/parse.cc:137-141 | with nothing consumed, or with the cursor at the end, the span is empty at its start |
| Parse.CurrentAfterNext | src/parse/parse.cc:93-112 | after `next_token` inside the sequence, the current token is the one just returned |
| Parse.CurrentIsPrevious | src/parse/parse.cc:107-126 | in range, `current_token` and `previous_token` agree |
| Parse.PeekMeansTokens | src/parse/parse.cc:61-72 | a successful `peek` means each looked-at token has the expected kind |
| Parse.PeekWindowExcludesLast | src/parse/parse.cc:62 | `peek` rejects a window that reaches the last token, even when every kind matches |
| Parse.PeekIgnoresLastToken | src/parse/parse.cc:61-72 | `peek` never reads the last token: replacing it changes no answer |
| Parse.EatTokensCompose | src/parse/parse.cc:86-91 | two clamped advances equal one clamped advance by the sum |
| Parse.GuardDegrees | tests/parse/parse_test.cc:59-80 | nested guards step the degree 1, 2, 3, 2, 1 |
| Parse.FreshParser | src/parse/parse.cc:22-28 | a new parser over the tokens, with cursor 0 and stack `[0]` |
| Parse.LoneEofTokens | tests/parse/parse_test.cc:84-97 | over a lone `Eof`: current is `Sof`, the next and taken tokens are `Eof`, and afterwards the current is `Eof` |
| Parse.FunctionTokens | tests/parse/parse_test.cc:100-170 | the tokens of `foo(x) { y }`, from byte 0 to 14 |
| Parse.FunctionDefinitionSpan | tests/parse/parse_test.cc:100-170 | a rule that eats the whole function definition spans bytes 0 to 14 |
| Parse.EatSignature | tests/parse/parse_test.cc:100-170 | eating the signature moves the cursor to 4 and keeps the stack |
| Parse.EatBody | tests/parse/parse_test.cc:100-170 | eating the body moves the cursor to 7 and keeps the stack |
| Parse.ParameterGuard | tests/parse/parse_test.cc:100-170 | a guarded optional identifier consumes it exactly when it is next, and restores the stack |
| Lex.KeywordFrom | src/lex/lex.cc:394-441 | the comparisons from one keyword on: a match exactly when a later entry spells the text, with that entry's kind |
| Lex.IsKeyword | src/lex/lex.cc:394-441 | a keyword kind exactly when the text equals some keyword, and then the kind it is listed with |
| Lex.WordKind | src/lex/lex.cc:257-271 | an identifier run is `Id` exactly when it is not a keyword, and never `Invalid` or `Eof` |
| Lex.KeywordKindsDistinct | src/lex/lex.cc:394-441 | no keyword has the kind of identifiers, strings, `Invalid` or `Eof` |
| Lex.Lexeme | src/lex/lex.cc:3-109 | every kind has a non-empty text |
| Lex.PunctuationLexeme | src/lex/lex.cc:3-109 | the lexeme of each one-character punctuation token is its character |
| Lex.PunctuationLexesBack | src/lex/lex.cc:123-150 | that character alone lexes back to the punctuation token, with length 1 |
| Lex.ShortOperatorLexeme | src/lex/lex.cc:3-109 | the lexeme of each one-character operator is its character |
| Lex.ShortOperatorLexesBack | src/lex/lex.cc:151-227 | that character alone lexes back to the operator, with length 1 |
| Lex.OperatorLexeme | src/lex/lex.cc:3-109 | the lexeme of each two-character operator is its two characters |
| Lex.OperatorLexesBack | src/lex/lex.cc:151-227 | those two characters lex back to the operator, with length 2 |
| Lex.RunEnd | src/lex/lex.cc:113-115 | a skipping loop stops inside the text, at or after its start |
| Lex.RunEndMaximal | src/lex/lex.cc:259-262 | a skipped run holds only characters of its class and stops at the first one outside it |
| Lex.SingleCharKind | src/lex/lex.cc:125-148 | the one-character tokens are never identifier characters, operator starts or quotes |
| Lex.OperatorAt | src/lex/lex.cc:151-227 | an operator is read exactly on an operator character, one or two characters long |
| Lex.StringBodyEnd | src/lex/lex.cc:277-283 | the body scan stops inside the text, on a quote or at the end |
| Lex.StringEnd | src/lex/lex.cc:273-290 | a string token covers at least its opening quote and stays inside the text |
| Lex.CharEndAsWritten | src/lex/lex.cc:357-372 | (as written) the scan always moves past the start |
| Lex.CharEnd | src/lex/lex.cc:357-372 | (corrected) the scan stays inside the text and never passes the as-written end |
| Lex.NumberToken | src/lex/lex.cc:292-355 | a number token starts at the cursor, stays inside the text, and has a number kind |
| Lex.DecimalToken | src/lex/lex.cc:327-354 | an unprefixed number is `Int`, `Real` or `RealSci`, inside the text |
| Lex.TokenAt | src/lex/lex.cc:117-247 | the token starts where it is read and stays inside the text |
| Lex.NextToken | src/lex/lex.cc:111-247 | the token starts at or after the cursor and stays inside the text |
| Lex.TokenAtClassified | src/lex/lex.cc:117-247 | `Eof` exactly at the end; `Invalid` exactly on a character no token begins with; exactly those two are empty, every other token makes progress |
| Lex.NextTokenSkipsSpace | src/lex/lex.cc:111-121 | exactly the white space before the token is skipped, and `Eof` comes exactly when only white space remains |
| Lex.IdentifierMaximalMunch | src/lex/lex.cc:235-236 | a word token covers the maximal run of identifier characters and is a keyword exactly when the whole run is one |
| Lex.OperatorLongestMatch | src/lex/lex.cc:151-227 | where a two-character operator matches, it is taken with length 2 |
| Lex.OperatorShortMatch | src/lex/lex.cc:151-227 | only where none matches is the one-character operator taken |
| Lex.NumberClassification | src/lex/lex.cc:292-355 | the kind is `IntBin`/`IntOct`/`IntHex` exactly for the prefixes; otherwise `Real` exactly after a `.`, `RealSci` exactly with an `e` after the fraction, and `Int` covers the maximal digit run |
| Lex.BasedDigits | src/lex/lex.cc:296-325 | a based integer covers the maximal run of its base's digits after the prefix |
| Lex.StringLiteralShape | src/lex/lex.cc:273-290 | a literal ends just after its closing quote, or at the end when unterminated |
| Lex.StringEscapeSkipped | src/lex/lex.cc:278-279 | `\` and the byte after it are skipped together, so an escaped quote never closes the literal |
| Lex.HelloWorldLiteral | tests/lex/lex_test.cc:109-117 | `"hello world"` is one token of 13 bytes |
| Lex.StringBodyEndPlain | src/lex/lex.cc:277-283 | over bytes with no quote and no backslash, the scan moves on one byte at a time |
| Lex.CharOverrunCounterexample | src/lex/lex.cc:357-372 | as written, `'` at the end reaches 2 in a text of length 1 and `'\` reaches 3 in one of length 2; the corrected scan stops at the end |
| Lex.CharEndAgrees | src/lex/lex.cc:357-372 | wherever the as-written scan stays inside the text, the corrected one agrees with it |
| Lex.CharLiteralExamples | src/lex/lex.cc:357-372 | `'a'` is three bytes and `'\n'` four |
| Lex.Lexer.CurrentChar | src/lex/lex.cc:117-121 | the character under the cursor, absent exactly at the end |
| Lex.Lexer.Peek | src/lex/lex.cc:250-255 | true exactly when the text at the cursor begins with the string, which then fits |
| Lex.Lexer.SkipRun | src/lex/lex.cc:113-115 | the loop moves the cursor to the end of the run |
| Lex.Lexer.RecognizeIdentifier | src/lex/lex.cc:257-271 | the token is the maximal identifier run, given its keyword kind or `Id` |
| Lex.Lexer.RecognizeStringLiteral | src/lex/lex.cc:273-290 | the token is the string literal, and the cursor moves to its end |
| Lex.Lexer.RecognizeNumber | src/lex/lex.cc:292-355 | the token is the classified number, and the cursor moves to its end |
| Lex.Lexer.RecognizeDecimal | src/lex/lex.cc:327-354 | the digits, fraction and exponent loops read the unprefixed number |
| Lex.Lexer.RecognizeChar | src/lex/lex.cc:357-372 | (corrected) the token is the char literal and stays inside the text |
| Lex.Lexer.Next | src/lex/lex.cc:111-247 | (corrected) the token is the next token of the text, with char literals ended by the corrected `CharEnd`, and the cursor moves to its end |
| Diagnostics.Record | src/diag/diag.cc:3-20 | a dropped diagnostic changes nothing; an admitted error or fatal counts one error, a warning one warning, a note nothing |
| Diagnostics.RecordKeepsCaps | src/diag/diag.cc:3-40 | emitting keeps both counters within their caps |
| Diagnostics.RecordAllSaturates | src/diag/diag.cc:3-40 | a sequence of diagnostics raises each counter by the number at its level, up to the cap |
| Diagnostics.DiagCtxt.constructor | src/diag/diag.hh:104-110 | a context with the options and both counters at 0 |
| Diagnostics.DiagCtxt.CanEmit | src/diag/diag.cc:28-40 | errors and fatals while below the error cap, warnings while below the warning cap, notes always |
| Diagnostics.DiagCtxt.Emit | src/diag/diag.cc:3-20 | the counters follow `Record`; the caps invariant is kept |
| Diagnostics.DiagBuilder.constructor | src/diag/diag.hh:68-73 | a diagnostic of the level, message and span, with no code, labels or notes |
| Diagnostics.DiagBuilder.Code | src/diag/diag.hh:75-78 | sets the error code only |
| Diagnostics.DiagBuilder.AddLabel | src/diag/diag.hh:80-83 | appends a label with one surrounding line |
| Diagnostics.DiagBuilder.AddNote | src/diag/diag.hh:85-88 | appends a note |
| Diagnostics.DiagBuilder.SpanLabel | src/diag/diag.hh:90-92 | appends a label at the diagnostic's own level |
| Diagnostics.DiagBuilder.Emit | src/diag/diag.cc:42-46 | counts the diagnostic in its context, or does nothing without one |
| Diagnostics.ErrorLimitsCounts | tests/diag/diag_test.cc:125-150 | under caps of two errors and one warning, three errors and two warnings leave the counters at 2 and 1 |
| Diagnostics.ErrorLimits | tests/diag/diag_test.cc:125-150 | the same on a context object |
| VirtualFs.NodeAt | src/vfs/vfs.cc:51-56 | absent exactly for an id past the table, else that node |
| VirtualFs.ChildNamed | src/vfs/vfs.cc:154-161 | the first listed child with the name, present exactly when one exists |
| VirtualFs.ResolveEndsAtName | src/vfs/vfs.cc:140-170 | a resolved non-empty path ends at a node named by its last component |
| VirtualFs.ResolveConcat | src/vfs/vfs.cc:140-170 | resolving `p + q` resolves `p`, then `q` from there; failure propagates |
| VirtualFs.FindSlash | src/vfs/vfs.cc:183 | the first `/` at or after the start, or the end |
| VirtualFs.SplitFromComponents | src/vfs/vfs.cc:173-195 | every component is non-empty and contains no `/` |
| VirtualFs.SplitFromKeepsCharacters | src/vfs/vfs.cc:173-195 | the components joined give back the path with its slashes removed |
| VirtualFs.SplitDropsEmptyComponents | src/vfs/vfs.cc:173-195 | `"a//b/"` splits into `["a", "b"]` |
| VirtualFs.FindSlashShift | src/vfs/vfs.cc:173-195 | the search for '/' behind a prefix finds the same '/', shifted by the prefix length |
| VirtualFs.SplitFromShift | src/vfs/vfs.cc:173-195 | splitting behind a prefix gives the split of the rest alone |
| VirtualFs.SplitAtFirstSlash | src/vfs/vfs.cc:173-195 | the first '/' ends the first component: a slash-free text before it is one component, none if empty |
| VirtualFs.SplitJoinRoundTrip | src/vfs/vfs.cc:173-195 | non-empty components without '/', joined with '/', split back into exactly those components |
| VirtualFs.SplitComponents | src/vfs/vfs.cc:177-194 | the splitting loop computes `SplitFrom`'s component list |
| VirtualFs.SourceFileIdOf | src/vfs/vfs.cc:198-205 | absent for directories and missing ids, else the file's source-file id |
| VirtualFs.SetThenGetSourceFileId | src/vfs/vfs.cc:198-216 | after a set on a file, a get returns the id; other nodes are unaffected |
| VirtualFs.SetSourceFileIdKeepsResolve | src/vfs/vfs.cc:140-216 | setting a source-file id changes no path resolution |
| VirtualFs.FileChildNamed | src/vfs/vfs.cc:264-270 | the first listed file child with the name, present exactly when one exists |
| VirtualFs.EntryFileMeaning | src/vfs/vfs.cc:243-273 | an entry file exists exactly for a `Src` directory with a file child `main.bl` or a `Normal` one with `mod.bl`, and is such a child |
| VirtualFs.FileChildIsChild | src/vfs/vfs.cc:264-270 | a found file child is listed among the children |
| VirtualFs.ChildrenOf | src/vfs/vfs.cc:276-283 | present exactly for directories, and then their children |
| VirtualFs.WithEntry | src/vfs/vfs.cc:393-413 | a scanned entry is appended under its parent and listed in the parent's children; nothing else changes names or parents |
| VirtualFs.WithEntryKeepsParents | src/vfs/vfs.cc:355-359 | adding entries keeps every parent before its child |
| VirtualFs.ProjectPathOfEntry | src/vfs/vfs.cc:103-137 | a new entry's project path is its parent's path with its own name appended |
| VirtualFs.AncestorsEndAtRoot | src/vfs/vfs.cc:113-124 | every parent walk collects at least the node's own name |
| VirtualFs.LastDot | src/vfs/vfs.cc:286-289 | the last `.` before a position, or none when there is none |
| VirtualFs.Extension | src/vfs/vfs.cc:286-289 | a non-empty extension starts with its only `.` and ends the name after a non-empty stem |
| VirtualFs.ExtensionOfStem | src/vfs/vfs.cc:286-289 | a non-empty stem followed by a dot-led suffix with no further `.` has that suffix as its extension |
| VirtualFs.IsBelegSourceFile | src/vfs/vfs.cc:286-289 | a source file exactly when the file name is a non-empty stem followed by `.bl` or `.beleg` |
| VirtualFs.SourceFileExtensions | src/vfs/vfs.cc:286-289 | a name with a non-empty stem ending in `.bl` or `.beleg` is a source file |
| VirtualFs.HiddenFileIsNotSource | src/vfs/vfs.cc:286-289 | `.bl` alone has no extension, so it is not a source file |
| VirtualFs.GetFileKind | src/vfs/vfs.cc:292-318 | `Normal` exactly for source files other than `mod.bl` and other than `main.bl` directly in `src` |
| VirtualFs.FileKindMeaning | src/vfs/vfs.cc:292-318 | `PackageConfig`, `Main` and `Mod` exactly for their names and places; `Other` only for non-source files |
| VirtualFs.GetDirKind | src/vfs/vfs.cc:321-352 | every directory nested deeper than the top level is `Normal` |
| VirtualFs.DirKindMeaning | src/vfs/vfs.cc:321-352 | `Src` exactly for the empty path and `src`; `Normal` exactly for the paths no rule names |
| VirtualFs.EntryNames | src/vfs/vfs.cc:243-273 | `main.bl` for `Src`, `mod.bl` for `Normal`, none for the other kinds |
| VirtualFs.Vfs.constructor | src/vfs/vfs.cc:8-13 | only the root directory, with id 0 |
| VirtualFs.Vfs.AddNode | src/vfs/vfs.cc:355-359 | the id is the old next id, equal to the node's position, and the next id grows by one |
| VirtualFs.Vfs.AddEntry | src/vfs/vfs.cc:393-413 | the table becomes `WithEntry` of the old one, and stays valid |
| VirtualFs.Vfs.GetNode | src/vfs/vfs.cc:51-56 | the node at the id |
| VirtualFs.Vfs.FindChild | src/vfs/vfs.cc:154-161 | the children loop finds the first child with the name |
| VirtualFs.Vfs.Resolve | src/vfs/vfs.cc:140-170 | the component loop computes `ResolveFrom`: the root for no components, a directory step per component, none on the first failure |
| VirtualFs.Vfs.ResolvePath | src/vfs/vfs.cc:173-195 | resolves the components of the split string |
| VirtualFs.Vfs.GetSourceFileId | src/vfs/vfs.cc:198-205 | `SourceFileIdOf`: the id stored in a file node, none for a directory or an unknown id |
| VirtualFs.Vfs.SetSourceFileId | src/vfs/vfs.cc:208-216 | succeeds exactly on file nodes and then sets only that id; otherwise nothing changes |
| VirtualFs.Vfs.GetEntryFile | src/vfs/vfs.cc:243-273 | the loop over the children computes `EntryFileOf` |
| VirtualFs.Vfs.GetChildren | src/vfs/vfs.cc:276-283 | `ChildrenOf`: the child list of a directory, none for any other id |
| VirtualFs.Vfs.GetProjectPath | src/vfs/vfs.cc:103-137 | the parent-walking loop, the reversal and the skipped root give `ProjectPathOf` |
| VirtualFs.ProjectTable | tests/vfs/vfs_test.cc:183-200 | the table for a project holding just `src/main.bl` |
| VirtualFs.ProjectTableBuilt | tests/vfs/vfs_test.cc:183-200 | scanning `src`, then `main.bl`, builds that table |
| VirtualFs.ProjectKinds | tests/vfs/vfs_test.cc:183-200 | `src` is a `Src` directory and `src/main.bl` a `Main` file |
| VirtualFs.MainPathSplits | tests/vfs/vfs_test.cc:183-200 | `"src/main.bl"` splits into `["src", "main.bl"]` |
| VirtualFs.MainPathResolves | tests/vfs/vfs_test.cc:183-200 | that path resolves to node 2 |
| VirtualFs.MainProjectPath | tests/vfs/vfs_test.cc:183-200 | node 2's project path is `src/main.bl` |
| VirtualFs.MainIsEntryFile | tests/vfs/vfs_test.cc:265-301 | `main.bl` is the entry file of `src` |
| VirtualFs.BuildProject | tests/vfs/vfs_test.cc:183-200 | the root and two scanned entries give that table |
| VirtualFs.PathGeneration | tests/vfs/vfs_test.cc:183-252 | on that table, resolution, project path and entry file all find `main.bl`, and a source-file id set on it reads back |

## Left out

- `SourceMap::load_file` reads the file system. A loaded file is just `AddFile` of its contents.
- `Vfs::build_from_fs` and the directory-walking part of `scan_directory` use the file system and exceptions. For each entry the scan adds, only the in-memory effect is modelled (`AddEntry`, `WithEntry`).
- `build_path_mapping` and `get_absolute_path` are left out. They join onto a real root path, and the path-to-node map only caches what `Resolve` computes.
- `Vfs::set_ast`/`get_ast` are left out, because they transfer ownership of an `Ast` through a `unique_ptr`.
- The manual union lifetime of `VfsNode` (placement new, copy and move) is replaced by a datatype with `Directory` and `File` variants.
- `ParseError::emit` and `Parser::parse_error` are left out: they only hand a diagnostic to the context. An error result of `try_file_scope` cannot arise in the modelled front end.
- `Parser::finalize` is left out; it moves the arena out.
- Forwarding from `DiagCtxt::emit` to the registered emitters, and `terminal_emitter.cc`, are left out. They are virtual calls and rendering to a stream.
- `std::formatter` and `magic_enum` in `lex.hh` are left out. The `Lexeme` function stands for the text of each kind.
- `Lex.IsSpace`, `Lex.IsAlpha`, `Common.IsDigitChar`, `Lex.IsHexDigit`: ASCII predicates rather than the locale-dependent `<cctype>` functions.
- Strings are modelled with one `char` per byte. There is no encoding.
- `SourcePositions.SourceMap.AddFile`: `next_start_pos` and the global positions are unbounded naturals, so its 32-bit wrap after 4 GiB of source is not modelled. Sums that a `Span` stores are wrapped explicitly. The new id is the unbounded file count, where the source narrows `files.size()` to `u32` (`src/source_map/source_map.cc:111`), so ids of more than 2^32 files do not wrap.
- `VirtualFs.Vfs.AddNode`: `next_node_id_` is unbounded, so its wrap is not modelled.
- `AstArena.Ast.AddNode`: node and slot indices are naturals. The source's `NodeIndex` is `u32` (`src/ast/ast.hh:12`), and `add_node` narrows `children_.size()`, `multiple.size()` and `nodes_.size()` to it (`src/ast/ast.hh:295-297`, `305-306`). The wrap past 2^32 nodes or slots is not modelled.
- `VirtualFs.GetFileKind`: the `std::filesystem::path` arguments are modelled as lists of components. A root name, a `.` element and the empty last element of a trailing separator cannot be expressed, and `parent_path() == "src"` is list equality with `["src"]`. The same holds for `VirtualFs.GetDirKind` and `VirtualFs.IsBelegSourceFile`. `Vfs::resolve` itself takes a list of components in the source.
- `Lex.Lexeme`: the lexemes of the 39 keyword kinds are not proved to agree with the keyword table, or to lex back. Checking the string literals of the table is beyond the resource limit. Only the operator and punctuation kinds are proved to lex back.
- `Lex.Lexer.Next`: the cursor and the token positions are naturals. With texts of 4 GiB or more, the `u32` cursor would wrap; that is not modelled.
- The header that declares `Lexer` is not part of this model. Its constructor and `current_char` are modelled from their uses in `src/lex/lex.cc`.
- `Parse.Parser.PreviousToken` requires the cursor be in range, since the source would index past the end otherwise. The parser's invariant guarantees this.
- `VirtualFs.Vfs.GetProjectPath` relies on parents always being added before their children, which the scanner guarantees. The source's walk has no cycle guard.
- `SourcePositions.Location`: the line and column are naturals rather than `u32`. They only differ for a content of 4 GiB or more, apart from the printed `column + 1`, which the model wraps.
- `SourcePositions.SourceMap.LookupBytePos` uses the corrected `LocationToBytePos`. On file "a\nb", line 2, column 2^32-1 it answers none, where the source's wrapped sum answers byte 1 (see Findings). The final `start_pos + local_pos` is unbounded, like every global position.
- `SourcePositions.SourceMap.MakeSpan` uses the corrected `LocationToBytePos`. On a column whose sum with its line start overflows 32 bits, it returns the empty span, where the source builds a span around the wrapped position.
- `AstArena.Ast.GetNode` uses the corrected `GetChildren`. On the arena of the get_children finding, node 3 has `[]` as children, where the source's `get_node` returns `[2, 1, 2]`.
- `Lex.Lexer.Next` uses the corrected `CharEnd`. On the text `'` the token and the cursor end at 1, where the source's `next` ends them at 2, past the text.
- `Parse.Parser.EatTokens`: the cursor is a natural, so the source's `usize` addition `cursor + amount` cannot wrap here. In the source it wraps only for an amount near 2^64.
- `SourcePositions.SourceMap.FormatSpan`: `end - 1` wraps in `u32`, exactly as in the source. A span with `end == 0` therefore looks up position 2^32-1 and has no rendering.

## Findings

| source | as written | input that shows it | evidently intended | confidence | as-written member | corrected member |
|---|---|---|---|---|---|---|
| src/source_map/source_map.cc:53 | `line_start + column` is computed in `u32` and wraps before the bound check | file "a\nb", line 2, column 4294967295: the sum wraps to 1, passes the last-line bound, and returns byte 1 (the newline of line 1) | a column past the end of its line is rejected | not executed | SourcePositions.ColumnOverflowCounterexample | SourcePositions.LocationToBytePos |
| src/ast/ast.hh:328-331 | `get_children` ends a node's slots at the next node's `children_start_`, but `add_node` lays out the next node's multi-child blocks before that start | three leaves, then a function node with children `[Single(3), Multiple([1, 2])]`: node 3's children come back as `[2, 1, 2]` | each node's children are exactly the slots it was built with | not executed | AstArena.ParameterListCounterexample | AstArena.Ast.GetChildren |
| src/lex/lex.cc:357-372 | `recognize_char` steps over the opening quote and the next byte without checking the end | text `'` alone: the cursor and the token end become 2, past the text's length of 1 | a char token never runs past the end of the text | not executed | Lex.CharOverrunCounterexample | Lex.CharEnd |
