# svprettyplot header pipeline, in Dafny

This project models the core of `prettyplot.py`, which draws a block diagram of a
SystemVerilog module from the module's header. The pipeline runs in five stages:

1. **Comment handling** (`comments.dfy`, on top of `text.dfy`):
   - `remove_comments` blanks `//` line comments and drops `/* ... */` regions before scanning;
   - `get_rst_comments` collects the `/** ... */` and `//*` documentation comments.

   `re.split` on a delimiter group is modelled as `Text.Split`. Each loop is a method, proved equal to a function over the split pieces. For block comments that function is also proved equal to a character-level reference (`StripBlocks`). The two documentation-comment functions have no such reference. Instead they have lemmas for one comment block, for one comment line, and for the shape of a short comment.
2. **Header scanner** (`scanner.dfy`, with `regex.dfy`): the `tokenize_and_parse` automaton. It has three parts:
   - token kinds;
   - the `FOLLOWS` successor table, with states tried in order;
   - the `MATCHES` field names.

   There is one matcher per kind. The punctuation, name and `module` keyword patterns are written by hand. The three declaration patterns run on a small backtracking matcher that explores alternatives and greedy runs in the order Python's engine does.
3. **Module builder** (`builder.dfy`): `interpret_systemverilog` as a loop over the tokens that updates an optional record. The record has a name and seven ordered lists. The dictionary lookups that can fail are modelled as a `MissingKey` outcome. The loop is proved equal to a reference interpretation of the token list.
4. **Row plan** (`layout.dfy`): `coprime2` and the row loops of `sv_prettyplot`, in both modes. The table is a sequence of rows, each with an optional input cell and an optional output cell; a cell has a span and a port id.
5. **Side nodes and edges** (`emitter.dfy`): `write_nodes` and `add_edges` as loops producing rows and edge records. `prettyplot.dfy` chains the stages into `sv_prettyplot` without the file and image I/O.

A port id such as `ii3` is modelled as the pair `PortRef("ii", 3)`. The prefixes in use (`i`, `ii`, `o`, `io`, `iri`, `iro`) are letters and the index is decimal, so the pair and the formatted string determine each other.

Character classes follow Python's `str` methods on ASCII: `\s` also covers the separators 0x1C-0x1F, `\w` is letters, digits and `_`, and `\D` is any non-digit.

## Model

| member | source | states |
|---|---|---|
| Text.Split | prettyplot.py:120 | `re.split` on one group of delimiters returns an odd number of pieces: text, delimiter, text, ... |
| Text.SplitConcat | prettyplot.py:120 | joining the pieces of a split gives back the text exactly: nothing lost or duplicated |
| Text.SplitPieces | prettyplot.py:120 | every odd piece is a delimiter; every even piece is not one and contains no one-character delimiter |
| Text.SplitAt | prettyplot.py:104 | after a stretch with no delimiter, the first delimiter closes the first piece, and the split continues after it |
| Regex.MatchSeq | prettyplot.py:17 | a backtracking match ends inside the text, consumes at least the pattern's minimum length, records group spans within what it read, and binds every group outside an optional part |
| Regex.Match | prettyplot.py:64 | a split with `maxsplit=1` on an anchored pattern returns one entry per group; the rest is a suffix shorter by at least the minimum length; mandatory groups are present |
| Regex.ParameterDeclFacts | prettyplot.py:14 | the `PARAMETER_DECL` pattern consumes at least one character and always binds its name and value groups |
| Regex.PortDeclFacts | prettyplot.py:17 | the `PORT_DECL` pattern consumes at least one character and always binds the port name |
| Regex.PortDeclIntfFacts | prettyplot.py:18 | the `PORT_DECL_INTF` pattern consumes at least one character and always binds interface, modport and name |
| Comments.BlankLineCommentsComplete | prettyplot.py:119 | after `re.sub(r'//.*\n', ' ', ...)` no line comment (a `//` with a newline after it) is left anywhere |
| Comments.BlankLineCommentsNone | prettyplot.py:119 | text in which no line comment starts is left unchanged |
| Comments.BlankLineCommentsNoNewline | prettyplot.py:119 | text without a newline is unchanged: a `//` with no newline after it stays |
| Comments.BlankLineCommentsIdempotent | prettyplot.py:119 | blanking line comments twice gives the same text as blanking once |
| Comments.StripBlocks | prettyplot.py:120-132 | dropping block comments never makes the text longer |
| Comments.KeepOutsideSplit | prettyplot.py:120-132 | the flag loop over the split keeps exactly the text outside `/* ... */` regions, with both delimiters dropped (the character-level reference) |
| Comments.StripBlocksRemovesComment | prettyplot.py:120-132 | a `/*b*/` region disappears with its delimiters, and the text before and after it is kept. This holds whenever no block delimiter starts inside `a` or `b`; both may hold a lone `*` or `/` |
| Comments.RemoveComments | prettyplot.py:118-133 | `remove_comments` returns the line-blanked text with every block comment and delimiter removed |
| Comments.StarLinesNoStar | prettyplot.py:100 | a body without `*` is not touched by a star-prefix rewrite |
| Comments.ReflowNoStar | prettyplot.py:100-101 | a long-comment body without `*` comes out of both rewrites unchanged |
| Comments.LineTrimNoNewline | prettyplot.py:114 | inside one line, text past the line start is left alone by the leading-blank rewrite |
| Comments.CollectLongComments | prettyplot.py:89-102 | the first loop returns the reflowed text of every piece between `/**` and `*/`, in order |
| Comments.CollectShortComments | prettyplot.py:103-115 | the second loop returns the trimmed text of every piece between `//*` and the end of its line, in order |
| Comments.GetRstComments | prettyplot.py:88-116 | `get_rst_comments` returns both lists |
| Comments.LongCommentOfBlock | prettyplot.py:89-102 | `/**b*/c`, with no delimiter inside `b`, yields exactly the reflowed `b` followed by the long comments of `c` |
| Comments.ShortCommentOfLine | prettyplot.py:103-115 | a `//*` line yields exactly one short comment: one space, then the rest of the line from its first non-blank character |
| Comments.ShortCommentsShaped | prettyplot.py:103-115 | every short comment starts with one space, holds no newline, and its second character is not a blank |
| Scanner.SlotsMatchNames | prettyplot.py:23-35 | a token's field lookup by name agrees with `MATCHES`: a kind has a slot for exactly the names it lists, at their listed positions |
| Scanner.Punct | prettyplot.py:12-13 | a punctuation pattern matches exactly when the text starts with its mark; it binds no group and leaves a strictly shorter suffix |
| Scanner.PunctRest | prettyplot.py:12-13 | after a punctuation mark the rest is the text after the mark, with the whitespace run that follows it skipped |
| Scanner.Name | prettyplot.py:11 | `MODULE_NAME` matches exactly when the first character is not a digit, even a bracket or a space; the name is that character followed by the longest run of word characters |
| Scanner.NameRest | prettyplot.py:11 | after a module name the rest is the text after the name, with the whitespace run that follows it skipped |
| Scanner.KeywordScanSound | prettyplot.py:10 | the keyword scan keeps its invariant up to the end of the first line holding `module`; none is found only when none exists |
| Scanner.Keyword | prettyplot.py:10 | `MODULE_KEYWORD` binds no group and leaves a strictly shorter suffix |
| Scanner.KeywordChoice | prettyplot.py:10 | `MODULE_KEYWORD` fails exactly when `module` occurs nowhere; otherwise it cuts after the last `module` on the first line holding one |
| Scanner.ParameterMatch | prettyplot.py:14 | a parameter match binds four groups, the name and value always present, and consumes text |
| Scanner.PortMatch | prettyplot.py:17 | a port match binds nine groups, the name always present, and consumes text |
| Scanner.InterfacePortMatch | prettyplot.py:18 | an interface-port match binds four groups, with interface, modport and name always present, and consumes text |
| Scanner.MatchKind | prettyplot.py:63-65 | every kind's pattern that matches leaves a strictly shorter suffix of the text, so the scan terminates |
| Scanner.MatchKindFields | prettyplot.py:76-77 | a match binds one group per `MATCHES` name of its kind, with the mandatory groups present |
| Scanner.FirstMatchIndex | prettyplot.py:62-67 | gives the first permitted kind whose pattern matches; every kind before it fails |
| Scanner.StepFirstMatch | prettyplot.py:60-82 | a step fails exactly when no permitted kind matches; otherwise it takes the first that does, with that match's groups and remaining text |
| Scanner.TryFollows | prettyplot.py:62-67 | the inner loop stops at the first permitted kind that matches, and returns that match |
| Scanner.TokenizeAndParse | prettyplot.py:56-86 | the state loop returns exactly the reference scan: `None` on a failed step, otherwise the tokens up to the first `DECL_END` |
| Scanner.ScanShape | prettyplot.py:68-86 | in a successful scan each kind is a permitted successor of the previous one, every token binds its mandatory fields, and `DECL_END` is last and appears only there |
| Scanner.KindsAfterStart | prettyplot.py:37-50 | a path from `ROOT` starts with the keyword and then the name, and has no other keyword or name |
| Scanner.PathLength | prettyplot.py:37-50 | a path from `ROOT` that reaches `DECL_END` has at least six tokens |
| Scanner.ScanFromRoot | prettyplot.py:56-86 | a successful scan holds at least six tokens: the keyword first, then the one and only module name |
| Builder.BucketOf | prettyplot.py:178-183 | an interface goes to incoming exactly when its modport is slave/sink/monitor/target, and to outgoing exactly when it is not but is master/source/initiator |
| Builder.ListOfKey | prettyplot.py:171 | the key `'%s_ports' % direction` exists in the record exactly when the direction is input, output or inout, and is then the key of that list |
| Builder.ParameterOf | prettyplot.py:157-159 | a parameter entry holds the token's `name` and `value` fields |
| Builder.PortOf | prettyplot.py:162-170 | a port entry copies `name`, `type` and `sign` as they are, and the four `packed` groups and `unpacked` become `''` when unmatched |
| Builder.InterfacePortOf | prettyplot.py:173-177 | an interface entry holds `name`, `interface` and `modport`; an unmatched `unpacked` becomes `''` |
| Builder.LastName | prettyplot.py:147-155 | the position of the last `MODULE_NAME` token, the one that reset the record; no name token follows it |
| Builder.CollectStep | prettyplot.py:156-183 | one more token extends each list by its entry if it belongs to that list, and leaves the others unchanged |
| Builder.CollectAppend | prettyplot.py:156-183 | a declaration token is appended to exactly the list the loop appends it to; other kinds change nothing |
| Builder.HoldsStep | prettyplot.py:146-183 | after one token either its lookup fails and that is the first failure, or the record equals the reference for the longer prefix |
| Builder.FaultStops | prettyplot.py:143-184 | once a lookup has failed, the tokens after it do not change the outcome |
| Builder.BuildStep | prettyplot.py:147-183 | one iteration returns the key whose lookup fails, or else the record with the token's entry added |
| Builder.Interpret | prettyplot.py:143-184 | `interpret_systemverilog` returns exactly the reference: the first failing key, or the record opened by the last name, or the empty record |
| Builder.CollectPartition | prettyplot.py:156-183 | when no lookup fails, the seven lists together hold exactly one entry per declaration token |
| Builder.InterfacesSorted | prettyplot.py:178-183 | incoming, outgoing and undirected interfaces each have only modports of their kind |
| Builder.FaultWitness | prettyplot.py:143-184 | the failing key comes from a token whose lookup fails while every earlier lookup succeeded |
| Builder.HeaderOutcome | prettyplot.py:143-184 | on a scanned header the builder never returns the empty record. It either builds the record named by the second token, or fails on a port whose direction names no list |
| Builder.ScannedOutcome | prettyplot.py:247-248 | the tokens of a successful scan have that header shape |
| Builder.NoDirectionFails | prettyplot.py:171 | a port with no direction makes the builder fail on the key `None_ports` |
| Layout.GcdIsGreatest | prettyplot.py:255 | the `gcd` used divides both counts, and every common divisor divides it |
| Layout.Coprime2Meaning | prettyplot.py:252-255 | `coprime2(a, b)` holds exactly when neither count is 1 and no divisor above 1 divides both |
| Layout.EmitGrid | prettyplot.py:268-286 | a row loop emits row `i` with the cells that the placement and span rules select |
| Layout.EmitRest | prettyplot.py:331-336 | one row per undirected interface, with cells `iri<k>` and `iro<k>` of span 1 |
| Layout.PlanTable | prettyplot.py:262-336 | the table rows in either mode: one shared grid, or a port grid and then an interface grid, followed by the undirected rows |
| Layout.PlacedOnce | prettyplot.py:268-285 | each entry of a side is placed in its row (row `k`, or row `k*n_other` in product mode), and every cell a side emits is one of its entries in that entry's row |
| Layout.PlacedOnlyThere | prettyplot.py:268-285 | with distinct port ids, an entry's id appears on its side only in its own row |
| Layout.DiagonalCells | prettyplot.py:269-274 | in diagonal mode row `i` holds entry `i` with span 1, or no cell once the entries run out (the dummy slot) |
| Layout.ProductCells | prettyplot.py:295-300 | in product mode a cell sits only on a multiple of `n_other`, with span 1 in the first `n_self` rows and `n_other` after |
| Layout.ProductSpansExample | prettyplot.py:299-300 | with four inputs and two outputs in product mode, the input spans are 1, 1, 2, 2 over 8 rows: they do not fill the column |
| Layout.DefaultRow | prettyplot.py:262-336 | with `always_coprime`, row `i` of the grid pairs input-side entry `i` with output-side entry `i`; the undirected rows follow |
| Layout.DefaultSpans | prettyplot.py:273-274 | with `always_coprime`, every cell spans one row |
| Layout.DefaultInputPlacement | prettyplot.py:276-280 | with `always_coprime`, input port `k` is cell `i<k>` of row `k`, and incoming interface `k` is cell `ii<k>` of row `#inputs + k` |
| Layout.DefaultInputsUnique | prettyplot.py:276-280 | with `always_coprime`, no port id appears twice in the input column |
| Layout.InputPortPlaced | prettyplot.py:294-304 | with `always_coprime` off, input port `k` is the input cell `i<k>` of its row of the port grid: row `k` in diagonal mode, row `k*n_out` in product mode |
| Layout.OutputPortPlaced | prettyplot.py:294-307 | with `always_coprime` off, output port `k` is the output cell `o<k>` of its row of the port grid |
| Layout.IncomingPlaced | prettyplot.py:315-325 | with `always_coprime` off, incoming interface `k` is the input cell `ii<k>` of its row of the interface grid |
| Layout.OutgoingPlaced | prettyplot.py:315-328 | with `always_coprime` off, outgoing interface `k` is the output cell `io<k>` of its row of the interface grid |
| Layout.InputPlaced | prettyplot.py:262-329 | in either mode, input-side entry `k` (the input ports, then the incoming interfaces) is the input cell, with its id and name, of table row `InputRow(k)`. In the second mode that row lies in the port grid, or in the interface grid after it |
| Layout.OutputPlaced | prettyplot.py:262-329 | in either mode, output-side entry `k` is the output cell, with its id and name, of table row `OutputRow(k)` |
| Emitter.WritePortNodes | prettyplot.py:195-209 | one row per port, with id `prefix<k>`, the side's alignment, the shown type and the name; an empty list gives nothing |
| Emitter.WriteInterfaceNodes | prettyplot.py:195-217 | one row per interface, with the display name from `INTERFACE_MAP` or the raw type |
| Emitter.ShownTypeBlank | prettyplot.py:207-208 | a type is shown blank exactly when it is `logic`, `wire` or `reg` |
| Emitter.ShownInterfaceKnown | prettyplot.py:212-215 | an interface type is shown differently from its own name exactly when `INTERFACE_MAP` knows it |
| Emitter.AddPortEdges | prettyplot.py:219-232 | one edge per port, labelled `unpacked + packed0..packed3`. Inputs run from the side node to the module with a tee head; outputs run back with a tee tail |
| Emitter.AddInterfaceEdges | prettyplot.py:219-241 | one thick edge per interface, labelled with its `unpacked` range, in the same directions |
| Emitter.Draw | prettyplot.py:338-358 | the diagram: the table rows, the `inputs` and `outputs` rows, then the edges of the four lists in the source's order |
| Emitter.InputWired | prettyplot.py:355-356 | in either mode, input row `k` is wired from `inputs` to the module port with the same id. That port is the input cell of table row `InputRow(k)`, which is row `k` with `always_coprime` |
| Emitter.OutputWired | prettyplot.py:357-358 | in either mode, output row `k` is wired from the module to `outputs` through the port with the same id. That port is the output cell of table row `OutputRow(k)`, which is row `k` with `always_coprime` |
| Emitter.DefaultDiagramWired | prettyplot.py:338-358 | one edge per side-node row, inputs first; each edge joins its row to the table cell with the same id on the matching side |
| Emitter.UndirectedNotWired | prettyplot.py:330-358 | every edge joins two ports with the same id, only among `i`, `ii`, `o` and `io`: undirected interfaces are never wired |
| Prettyplot.TokenizeSystemverilog | prettyplot.py:135-141 | the comments of the raw text, and the scan of the text with comments removed |
| Prettyplot.SvPrettyplot | prettyplot.py:243-369 | the whole pipeline: a failed scan, the failing key, or the diagram together with both comment lists |
| Prettyplot.PlotAfterScan | prettyplot.py:247-260 | once the header scans, the only failure left is a port without a valid direction; otherwise the diagram is titled and built from the declarations after the name |
| Prettyplot.NameNeverMissing | prettyplot.py:260 | the lookup of the module name for the title never fails |

## Left out

- `sphinx_sv_prettyplot.py` is not part of this model: it is documentation-tool glue with no logic of its own.
- Reading the source file and writing the `.dot`, `.pdf` and `.png` files are left out (prettyplot.py:244-245, 360-367). The text comes in as a parameter and the diagram goes out as data.
- The pydotplus graph, node and edge objects are left out. So are the HTML table markup, fonts and cell spacing: `cellspacing_block`, `cellspacing_wires`, `font_face` and `fontsize` do not affect the modelled rows and edges. The title row is kept only as the diagram's title.
- The `print` output of a failed scan and of verbose mode is left out (prettyplot.py:69-70, 79-80).
- After a failed scan the source hands `None` to `interpret_systemverilog`, which crashes. The model ends with `ParseFailed` instead.
- Characters outside ASCII are not modelled: Python's Unicode classes for `\w`, `\s` and `\D` are reduced to their ASCII members.
- The backtracking matcher covers only the regular-expression features that the three declaration patterns use. It is not a general `re` engine.
- `Gcd` is Euclid's algorithm by subtraction, standing in for `math.gcd`. `GcdIsGreatest` proves it is the greatest common divisor.
- The arguments `gendot`, `set_name` and `kind` are folded into the separate port and interface members. The two `write_nodes` calls that are commented out in the source are not modelled.

Facts about the code that the model keeps:

- The row spans of one side need not add up to the row count. In diagonal mode every cell spans one row, and in product mode the spans can fall short (`Layout.ProductSpansExample`).
- A failed scan prints the state and the remaining text, then returns `None` (prettyplot.py:68-71). The model returns `None`.
- The builder raises a key error for a port without a valid direction (`Builder.NoDirectionFails`). The model reports it as `MissingKey`.
