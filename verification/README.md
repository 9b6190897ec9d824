# nvptx-tools: a verified model

nvptx-tools is an assembler, a linker, a symbol lister and a runner for PTX code.
This project models the parts of them that compute, as programs in memory, and
proves what they promise. Two headers that come with the tools are modelled too.

* **The linker** (`Markers`, `LinkSpec`, `LinkInvariant`, `LinkRun`, `Link`,
  `GlobalCtors`, `CtorLists`, `SecondRun`, `LinkErrors`, `SymbolTable`, `Linker`,
  `LinkMain`, `LinkProgram`, `EmptyParts`).
  `LinkSpec`, `LinkRun` and `Link` say on values what scanning, linking, the rounds
  of a resolve run and the second run compute; `LinkInvariant` says what each table
  entry records about the markers linked so far. `SecondRun` and `LinkErrors` tell from
  the markers alone when the lists are written and why a link fails, and `CtorLists`
  says what the lists say, line by line. `SymbolTable` is the table in
  memory, with the list of unresolved symbols threaded through its entries, and
  `LinkProgram.Run` is the program. The linker's own assertions are proved where they
  cannot fail; the ones an input can make fail (a file that defines `__CTOR_LIST__` or
  `__DTOR_LIST__`, a trigger that is there too early, or not at all) are outcomes of
  the model.
* **The assembler** (`Tokenizer`, `Statements`, `StmtLists`, `ParserSpec`,
  `ParserFacts`, `FileShape`, `FileLayout`, `FileDeps`, `ShapeSame`, `ShapeSteps`,
  `ShapeFacts`, `LayoutText`, `Conservation`, `Lexemes`, `TokenForms`, `RoundTrip`,
  `PrintTokenise`, `SymbolOrder`, `Assembler`, `NulFreeText`, `Process`,
  `AssembledFile`, `Surprises`). `ParserSpec` says what the parser makes of a token
  buffer; the class `Assembler.Parser` does it in place, with its statements in
  linked nodes, and `Process.Run` is the program from text to text. Beside it stands a
  description of files without statements, flags or a parser's state: `TokenForms` says
  how a text is made up of blanks and tokens, `FileShape` where each item ends and which
  tokens belong to none, `FileLayout` in which list and form each token is printed,
  `FileDeps` which variables a variable needs. `ShapeFacts` proves that the parser agrees, and `AssembledFile` says in these
  terms alone what is printed, in which order, and when assembling fails.
* **The symbol lister and the runner** (`Nm`, `NmTypes`, `MarkerText`, `Framing`,
  `CtorPart`, `CrossTool`): nvptx-nm's own marker scanner and type merging, how markers
  are written, and what both tools make of the files the linker writes.
* **Headers**: the doubly linked list with its merge sort (`DoublyLinkedList`,
  `MergeSort`), double-word arithmetic (`Words`, `LongLong`), LEB128 (`Leb128`).

`Common` holds what several modules share.

## What the code does where one might expect otherwise

* The printer of nvptx-as doubles every backslash of a string, so a file with a
  backslash in a string does not survive printing and reading again. The round trip
  is proved to hold exactly when no printed string holds one
  (`PrintTokenise.PrintTokeniseRoundTrip`); `Surprises.BackslashChanged` gives a
  well-formed file that comes back changed.
* nvptx-run hands on an empty part if it is the first one, and skips every other
  empty part (`Framing.HandedOfFramed`). `EmptyParts.EmptyPartSkipped` links two
  empty objects into a file of which one part is not handed on.
* nvptx-as ignores the first character when it looks for keywords in a header
  (nvptx-as.cc:209-210). `Surprises.KeywordErrs` says exactly which tokens are
  mistaken: those that begin with no dot and go on with the keyword, such as the
  name `xfunc`. A variable of that name is taken for a declaration, and what follows
  its `=` on the line is dropped where it begins with neither a directive nor a
  comment (`Surprises.NameMakesDeclaration`).
* nvptx-as drops a header that the end of the file cuts off, and lines that begin
  with neither a directive nor a header (nvptx-as.cc:853-858, 921-931).
  `ShapeFacts.DroppedIsLost` says exactly which tokens are dropped, and
  `AssembledFile.WellFormedConserved` that none is in a well-formed file.
* A comment between a function's header and its `{` is taken as its whole body, and
  the line of the brace is dropped, so code is lost without an error
  (nvptx-as.cc:664-718, 859-870; `Surprises.CommentBeforeBody`, and
  `Surprises.BodyLost` for a file on which it happens).
* Comments inside statements are printed without their slashes
  (nvptx-as.cc:600-613). They are not read back as comments
  (`Surprises.BareCommentLost`).
* A NUL ends what nvptx-as reads of its input (nvptx-as.cc:445, 966), while nvptx-ld
  aborts at a file that holds one (nvptx-ld.cc:898, 957): `Process.Read`,
  `LinkProgram.Run`.
* The comparison used to sort constructors is true of equal arguments
  (nvptx-ld.cc:326-341). No two functions in one list have the same sequence number
  (`GlobalCtors.Numbered`), so it never sees any, and the sorted list is unique
  (`GlobalCtors.SortingIsUnique`).

## Assumptions

* Linker: no marker names a symbol that begins with `*` (the code asserts it). The
  theorems about the output are for links in which every file was scanned, which
  `LinkProgram.AllScan` puts in terms of the files.
* Assembler: comments and strings are closed, tokens are shorter than 65536
  characters (`TokenForms.Stops`), and every item ends in the file, as its tokens say
  (`Process.Supported`, `FileShape.FileReach`). The round trip also asks that comments
  end their line, stand between statements, and do not follow a lone slash on its line
  (`PrintTokenise.PlainFile`); these too are told from the tokens read.
* LEB128: the readers are used on numbers of at most ten bytes, as longer ones shift
  by more than 63.

## Model

| member | source | states |
|---|---|---|
| Link.LinkClosed | nvptx-ld.cc:979-1059 | after a successful link every declaration in a written file is of an intrinsic or list, or defined in a written file, or ignored and defined in no scanned file; across both resolve runs |
| Link.LinkedOnce | nvptx-ld.cc:979-1059 | no scanned file is written twice over the whole run |
| Link.OneStrongDefinition | nvptx-ld.cc:660-703 | among the written files a symbol has at most one strong DEF, none if it is intrinsic, and the table names the file of that DEF |
| Link.NothingGratuitous | nvptx-ld.cc:979-1027 | every file of a round is an input file of the first round, or the first scanned definer of a symbol declared in a strictly earlier round, or, in the second run only, of the trigger |
| Link.AllReachable | nvptx-ld.cc:979-1027 | every written file can be reached from the input files, and in the second run from the file that defines the trigger, by going from a file that declares a symbol to the first scanned file that defines it; in no more steps than there are rounds before its own |
| Link.InputsFirst | nvptx-ld.cc:899-906 | the first round writes the input files, all of them and in command-line order: the unresolved list reverses them and the list of files reverses them back |
| LinkInvariant.FailsAtSecondStrong | nvptx-ld.cc:660-703 | the multiple-definitions error occurs exactly at a strong DEF of a symbol that already has one or that no file may define |
| LinkInvariant.MarkerKeepsInv | nvptx-ld.cc:646-711 | linking one marker keeps what every table entry says about the markers so far: defined, included, referenced, unresolved, strongly defined |
| LinkInvariant.FilesKeepInv | nvptx-ld.cc:1030-1058 | so does linking the files of a round, and no special symbol comes back into the list |
| LinkSpec.ScanCorrect | nvptx-ld.cc:623-645 | after scanning, each symbol is recorded as defined by the first scanned file with a DEF of it, each key by its input file, intrinsics by none |
| LinkRun.CollectFromCorrect | nvptx-ld.cc:981-1027 | the pass over the unresolved symbols fails just when one is undefined and not ignored; otherwise what stays unresolved waits for a collected file |
| LinkRun.ToAddIsNew | nvptx-ld.cc:681-693 | no unresolved symbol is defined by a file already linked, since linking a file includes all it defines |
| LinkRun.RoundProgress | nvptx-ld.cc:979-1059 | every round that does not fail writes a file never written before or empties the list, so a resolve run ends |
| LinkRun.RoundKeepsInv | nvptx-ld.cc:979-1059 | one round keeps what holds between rounds: the table invariant, files linked once, every file justified |
| LinkRun.VisitStep | nvptx-ld.cc:983-1027 | one step of the pass keeps what holds between its steps |
| Link.SecondRunInv | nvptx-ld.cc:1082-1096 | defining the lists and asking for the trigger keeps what holds between rounds, so the second run starts sound |
| Link.RunsInOrder | nvptx-ld.cc:970-1110 | the second run only adds rounds to those of the first |
| SymbolTable.Table.Lookup | nvptx-ld.cc:109-130 | finds the entry of a name, or creates a fresh one at the end, and changes nothing else |
| SymbolTable.Table.EnqueueAsUnresolved | nvptx-ld.cc:497-509 | puts an entry that is neither included nor referenced at the front of the doubly linked list; both chains stay consistent and acyclic |
| SymbolTable.Table.DequeueUnresolved | nvptx-ld.cc:511-521 | takes an entry out of any place of the list and leaves its own `next`, so a traversal can go on from it |
| SymbolTable.Table.SetDef | nvptx-ld.cc:903-905 | records the definition of one symbol and of no other |
| SymbolTable.Table.Reads | nvptx-ld.cc:45-58 | what the fields of an entry say is what the table says of its name; the entry is in the list just when its name is unresolved |
| SymbolTable.KeysWithout | nvptx-ld.cc:511-521 | unlinking an entry removes its name, once, from the unresolved names |
| Linker.ScanRefsDefs | nvptx-ld.cc:554-720 | scan mode over the text of a file, which is read as a C string: the table becomes that of the markers, or the line is truncated, exactly when the line-based reading says so; the assertions about included symbols hold |
| Linker.LinkOne | nvptx-ld.cc:646-711 | one marker in link mode, with its assertions about the list proved |
| Linker.LinkRefsDefs | nvptx-ld.cc:554-720 | link mode over a whole file: fails exactly at the second strong DEF, otherwise the table becomes that of the markers |
| Linker.IncludeEntry | nvptx-ld.cc:680-693 | a first DEF includes its symbol, takes it out of the list if it is there, and notes special-purpose functions |
| Linker.Visit | nvptx-ld.cc:983-1013 | special symbols are included and dequeued, ignored ones dequeued, while the traversal stands on them |
| Linker.AddFile | nvptx-ld.cc:1021-1026 | a file not queued yet goes to the front of the list, a queued one stays where it is |
| Linker.CollectFiles | nvptx-ld.cc:981-1027 | the pass over the unresolved symbols gives exactly the files to add, in order, each once, or the error |
| LinkMain.LinkListed | nvptx-ld.cc:1029-1058 | links the listed files in order and appends each with a NUL to the output; all marks are cleared again |
| LinkMain.Round | nvptx-ld.cc:979-1059 | one round is the pass and then the linking |
| LinkMain.ResolveRun | nvptx-ld.cc:979-1059 | a whole resolve run, with its outcome and exactly the bytes it writes; it ends |
| LinkMain.DefineIntrinsicEntries | nvptx-ld.cc:523-539 | the three intrinsics are included and defined by no file |
| LinkMain.DefineEntry | nvptx-ld.cc:419-427 | a list becomes a symbol defined by no file, unless it is included already |
| LinkMain.HandleSpecialPurposeFunctions | nvptx-ld.cc:344-495 | the lists are written and defined, or nothing is, or the names or priorities are wrong, in the order the code checks. When that happens, and with which names, is told by `SecondRun.ListsDecided` and `SecondRun.ListsWritten` |
| GlobalCtors.CollectCdtors | nvptx-ld.cc:352-377 | constructors and destructors are told apart and numbered in order of appearance; any other name is an error |
| GlobalCtors.WriteList | nvptx-ld.cc:386-417 | the text of one list, after checking the priorities. What the lines say is told by `CtorLists.ListLinesAre` |
| GlobalCtors.SortCdtorsInOrder | nvptx-ld.cc:326-341 | a list holds exactly the functions found, highest priority first and the latest first among equals |
| GlobalCtors.Numbered | nvptx-ld.cc:352-377 | the functions of a list are numbered 0, 1, 2, ... in order of appearance, so no two have the same number |
| GlobalCtors.SortingIsUnique | nvptx-ld.cc:326-341 | any permutation of the functions of a list in which none precedes an earlier one is the list the model writes, so how it is sorted makes no difference |
| GlobalCtors.DecimalRoundTrip | nvptx-ld.cc:902-903 | a number printed into a name can be read back |
| LinkProgram.KeysDistinct | nvptx-ld.cc:845-906 | the special names of input files are all different |
| LinkProgram.RegisterInput | nvptx-ld.cc:899-906 | an input file is registered under a name that has no definition yet, and queued |
| LinkProgram.ScanInputs | nvptx-ld.cc:845-907 | all objects on the command line are scanned and registered in order, up to the first with a truncated marker line or a NUL; archives only take up a number |
| LinkProgram.ScanMembers | nvptx-ld.cc:913-960 | library members are scanned after the input files |
| LinkProgram.AllScan | nvptx-ld.cc:890-957 | scanning succeeds exactly when no file has a truncated marker line and none holds a NUL |
| LinkProgram.GlobalCtorSupport | nvptx-ld.cc:1061-1097 | what happens after the first run: nothing, an error, a failed assertion, or lists and a queued trigger |
| LinkProgram.FinishLink | nvptx-ld.cc:1061-1110 | the end of a link: its exit and its output |
| LinkProgram.Run | nvptx-ld.cc:823-1124 | the whole program, in which no marker names a symbol that begins with `*`: it ends with the error of the first file with a truncated marker line, or aborts at the first that holds a NUL, or exits and writes as the value model says, the output being the files of the first run, the lists, and the files of the second run, each followed by a NUL |
| Markers.NextMarker | nvptx-ld.cc:557-719 | the pointer-stepping scanner finds exactly the next non-first line that begins with a known GLOBAL marker, with its name and whether the next line is weak |
| Markers.ReadMarker | nvptx-ld.cc:560-611 | one marker line: known, unknown, or truncated |
| Markers.AtMarker | nvptx-ld.cc:560-611 | what a marker line contributes to the line-based reading |
| Markers.SkipInLine | nvptx-ld.cc:716 | text within a line does not matter to the scanner |
| Nm.ProcessRefsDefs | nvptx-nm.cc:139-279 | nvptx-nm reads a part as its lines say: global and local markers, weak ones only if global, types merged in order |
| Nm.TypeTable.Enter | nvptx-nm.cc:239-270 | one type is merged into the table as the table of cases says, or the assertion fails |
| Nm.ReadFile | nvptx-nm.cc:687-702 | the part loop visits all parts, with one global table and a local one for each part, and stops at the first bad part |
| NmTypes.ReadEntersGlobals | nvptx-nm.cc:139-203 | whenever nvptx-nm reads a part, the GLOBAL markers it enters are the very list nvptx-ld finds |
| NmTypes.SameGlobals | nvptx-nm.cc:139-203 | unless the last line is truncated, the GLOBAL markers are those of nvptx-ld, in order |
| NmTypes.TwoTables | nvptx-nm.cc:234-237 | global and local markers do not interfere |
| NmTypes.FoldTells | nvptx-nm.cc:239-270 | merging fails exactly when a symbol is defined both as variable and as function; otherwise each type says which definitions there are and whether one is strong, whatever their order |
| NmTypes.UndefinedTells | nvptx-nm.cc:244-249 | a symbol without definition has the type of its last declaration |
| NmTypes.FileTells | nvptx-nm.cc:687-702 | nvptx-nm succeeds exactly when every part is fine by itself and no global symbol is of two kinds; then its types tell the definitions in all parts |
| MarkerText.MarkersRoundTrip | nvptx-nm.cc:139-203 | every marker as GCC writes it, global or local, function or variable, DEF or DECL, weak or not, with any code between, is read back by nvptx-nm with its name, in order, and by nvptx-ld if it is global; nothing else is read |
| SecondRun.ListsDecided | nvptx-ld.cc:1061-1097 | in a successful link the lists are written exactly when some scanned file has a marker that names `__trigger_gbl_ctors` and some file of the first run has a DEF of a name that begins with `_GLOBAL__`; then the first scanned file that defines the trigger is linked in the round after the first run, and no later file defines another such name |
| SecondRun.FirstDecides | nvptx-ld.cc:1061-1097 | after the first run the markers linked decide all else: which failed assertion, which error, no second run, or which one |
| SecondRun.ListsWritten | nvptx-ld.cc:379-484 | the part written holds the two lists of exactly the names that begin with `_GLOBAL__` and are defined by files of the first run, each once, and each begins with one of the two prefixes |
| SecondRun.SpecialsAre | nvptx-ld.cc:688-692 | the special-purpose functions noted are exactly the names that begin with `_GLOBAL__` and that a DEF names, each once |
| CtorLists.ListLinesAre | nvptx-ld.cc:386-417 | the lines of one list: an `.extern .func` line for each name with the prefix, in order of appearance; the number of entries; two lines for each name, highest priority first and the latest first among equals, the first with its priority and sequence number; the closing lines |
| CtorLists.PartHolds | nvptx-ld.cc:379-484 | the part written between the runs is its three directives, the list of constructors, that of destructors, and the dummy function |
| CtorLists.PriorityIs | nvptx-ld.cc:300-311 | the five characters after the prefix, blanks, then a sign or none, then digits, are the priority in decimal |
| CtorLists.PriorityTells | nvptx-ld.cc:300-324 | exactly such names, unless the number is negative, have a priority |
| LinkErrors.FailureExplained | nvptx-ld.cc:979-1059 | every error has its cause in the files linked by then, those of a second run only if there is one: a declared symbol that no scanned file defines, two strong DEFs of one symbol, a name that begins with `_GLOBAL__` and is malformed, or one that is defined too late |
| LinkErrors.AbortExplained | nvptx-ld.cc:1061-1097 | an assertion fails only if a file of the first run defines the trigger, or, where lists are to be written, defines one of them or declares the trigger, or if no scanned file defines the trigger and that is ignored |
| CtorPart.PartHasNoMarks | nvptx-ld.cc:379-484 | the part for constructors and destructors holds no NUL and no marker, for any names without line feed or NUL |
| CrossTool.OutputIsListed | nvptx-nm.cc:687-702 | nvptx-nm reads the output of a successful link without error if the files are fine and each symbol is of one kind |
| CrossTool.UndefinedIsSettled | nvptx-nm.cc:239-270 | a symbol listed as `U` or `w` after a successful link is an intrinsic or list, or ignored and defined in no scanned file |
| CrossTool.StrongIsListed | nvptx-nm.cc:255-265 | a symbol with a strong DEF in a written file is listed as `D` or `T` |
| CrossTool.PartNames | nvptx-ld.cc:688-692 | what is written between the runs is the lists of names that come from marker lines |
| CrossTool.OutputInOrder | nvptx-ld.cc:1029-1097 | the output is the written files in the order of the rounds, with the lists directly after the files of the first run |
| CrossTool.OutputIsHandedOn | nvptx-run.cc:99-122 | nvptx-run hands on exactly the parts of the output, just when no part but the first is empty |
| EmptyParts.LinksInputs | nvptx-ld.cc:979-1059 | files without markers are linked in one round, inputs only, without lists |
| EmptyParts.EmptyPartSkipped | nvptx-run.cc:99-122 | a link of two empty objects writes two empty parts, and nvptx-run hands on only the first |
| CrossTool.ProgramLinks | nvptx-ld.cc:823-1124 | the theorems above apply to every run of the program that scans all its files and links them |
| Framing.PartsOfFramed | nvptx-nm.cc:687-702 | what nvptx-ld frames with NULs is visited as its parts followed by one empty part |
| Framing.HandedExactly | nvptx-run.cc:99-122 | the splitter of nvptx-run hands on exactly the framed parts, just when all but the first are not empty |
| Framing.HandedOfFramed | nvptx-run.cc:99-122 | in general it hands on the first part and all other parts that are not empty |
| Framing.HandOn | nvptx-run.cc:99-122 | the nested loops compute that splitting, and end |
| Tokenizer.Tokenize | nvptx-as.cc:279-450 | the pointer loop gives the tokens of the recursive reading of a C string, with the space and line-end flags, or the non-ASCII error. What that reading makes of the text is told by `TokenForms.LexParts` |
| Tokenizer.NextToken | nvptx-as.cc:289-447 | one token, with what a comment that goes on means for the next |
| Tokenizer.ScanPlain | nvptx-as.cc:364-427 | identifiers, numbers, strings, labels and single characters |
| Tokenizer.ScanBlock | nvptx-as.cc:334-358 | a line of a block comment |
| Tokenizer.StoreNext | nvptx-as.cc:434-446 | the line-end flag of a token is set when the next token is read |
| TokenForms.LexParts | nvptx-as.cc:279-450 | the text read is gap, token, gap, token, to its end: a gap holds blanks only, a token stands as it is written, a comment with its slashes or stars, and with the line feed or the end that closes a block line; kind, text, space and line end of each token are told from it and from what comes next |
| TokenForms.StoredPart | nvptx-as.cc:434-446 | a token stored ends its line just when a line feed stands in the gap after it, or a block comment goes on there |
| TokenForms.LexDivided | nvptx-as.cc:279-450 | every text is divided so, and where reading stops before its end there stands, where a token would begin, a character outside ASCII, or a comment line or string without an end, or a token of more than 65535 characters |
| Lexemes.LexedOk | nvptx-as.cc:279-450 | every text read is a token of its kind, and two tokens without blanks between them stay apart when read again |
| Lexemes.ReadBack | nvptx-as.cc:323-427 | a token followed by anything it stays apart from is read back |
| Lexemes.ReadIs | nvptx-as.cc:323-427 | what is read is a token, and it ends before what follows |
| Statements.WriteEscaped | nvptx-as.cc:462-484 | string contents are written with every backslash doubled |
| Statements.DoubledBack | nvptx-as.cc:462-484 | doubling adds one character for each backslash and can be undone |
| Statements.WriteToken | nvptx-as.cc:454-494 | a token with its space and line end |
| StmtLists.AppendStmt | nvptx-as.cc:237 | a new node at the front of a list of linked nodes: the list then holds one statement more, last first |
| StmtLists.RevStmts | nvptx-as.cc:583-598 | a list is turned around by relinking its nodes in place |
| StmtLists.WriteStmts | nvptx-as.cc:600-619 | statements one after the other along the links; comments with slashes, predicates with a space |
| Assembler.Parser.AppendStmt | nvptx-as.cc:237 | a statement goes to the front of one list of linked nodes; the other lists and all symbols stay, and no two lists share a node |
| Assembler.Parser.SymbolHashLookup | nvptx-as.cc:162-184 | a symbol is found by name, or created at the end of the order of appearance |
| Assembler.Parser.ParseLineNosemi | nvptx-as.cc:623-636 | a line is one statement |
| Assembler.Parser.ParseStep | nvptx-as.cc:645-716 | one statement of a function body in place, as the value model has it. Which list each token goes to and how it is printed is told by `ShapeFacts.OwnerIs` and `AssembledFile.TextIs` |
| Assembler.Parser.ParseInsn | nvptx-as.cc:638-721 | a function body up to its closing brace |
| Assembler.Parser.ParseInitialiser | nvptx-as.cc:723-767 | an initialiser in place, as the value model has it. Which dependencies it notes is told by `FileDeps.NeedsNoted` |
| Assembler.Parser.ScanHeader | nvptx-as.cc:820-851 | a header: its keywords, its last symbol, spaces around parameters |
| Assembler.Parser.ParseAfterHeader | nvptx-as.cc:853-918 | whether a header is cut off, a function, a variable, or a declaration |
| Assembler.Parser.ParseOne | nvptx-as.cc:769-933 | one call of the file parser |
| Assembler.Parser.ParseWhole | nvptx-as.cc:1004-1010 | the loop over the file computes the statements, dropped tokens, symbols and dependencies of the value model |
| ParserFacts.ParseTiles | nvptx-as.cc:769-933 | for every file the parser gets through, statements and dropped stretches tile the token buffer up to the terminator; texts stay, line ends are only added, spaces only removed behind punctuation or at statement starts. Which tokens are dropped is told by `ShapeFacts.DroppedIsLost` |
| ParserFacts.FileStep | nvptx-as.cc:769-933 | the same for every single call. Which tokens a call drops is told by `ShapeFacts.ItemMeets` |
| ParserFacts.FileMoves | nvptx-as.cc:1004-1010 | every call takes a token unless it stands on the terminator, so the loop ends |
| ParserFacts.HeaderStep | nvptx-as.cc:818-918 | the same for headers, variables and functions |
| ShapeFacts.ItemMeets | nvptx-as.cc:769-933 | one call of the parser takes exactly the item that begins there, as told from the tokens alone: it ends where the item ends, puts each token into the list and prints it in the form that the layout gives, drops the strange ones, notes the variable and what it depends on, and fails when a variable has no name |
| ShapeFacts.ParseMeets | nvptx-as.cc:1004-1010 | the parser gets through a file, finds no identifier, or reads past the tokens, exactly as the items of the file say; the places of all tokens and the dependencies are those of the layout |
| ShapeFacts.OwnerIs | nvptx-as.cc:638-933 | each token of a file stands in the list it belongs to and is printed there as its place says, or nowhere: directives, maps, declarations and a `.file` line in a body among the declarations; a variable with its initialiser in the list of the last name of its header; all else of a function in the functions; labels, predicates, braces, `.loc` lines, trailing comments and headers included |
| FileLayout.LostNowhere | nvptx-as.cc:853-931 | the tokens without a place are exactly those that belong to no item |
| LayoutText.ListPrinted | nvptx-as.cc:454-494 | what is printed for the statements of one list is its tokens in the order of the file, each with its slashes, space, line end and gap |
| FileDeps.NeedsNoted | nvptx-as.cc:723-767 | a variable depends on `y` exactly when some value of its initialiser, between its separators, has a last name, and that is `y` |
| FileDeps.NamesInOrder | nvptx-as.cc:162-184 | symbols are kept once each, in the order in which the file first mentions them |
| FileDeps.NamesNoted | nvptx-as.cc:162-184 | the symbols appear in the order in which variables are defined and used, as each is looked up before anything is put into its list |
| ShapeFacts.DroppedIsLost | nvptx-as.cc:769-933 | a token is dropped exactly when it belongs to no item, which the tokens alone tell |
| ShapeFacts.NothingDropped | nvptx-as.cc:769-933 | nothing is dropped exactly when no item is strange: each begins, after its comments, with a directive or a header, and no header runs into the end of the file |
| ShapeFacts.WellFormedParses | nvptx-as.cc:769-933 | in a well-formed file (directives end their line; a function has its body directly after its header, with balanced braces; an initialiser belongs to a variable, which has a name, and ends in `;`) the parser succeeds and drops nothing |
| ShapeFacts.FitsIsPlain | nvptx-as.cc:638-767 | no statement made holds a comment inside exactly when none stands inside an item, as the tokens say |
| FileShape.WellFormedReaches | nvptx-as.cc:769-933 | a well-formed file is read to its terminator and has nothing strange |
| FileShape.LostIsStrange | nvptx-as.cc:853-931 | every token belongs to an item exactly when nothing is strange |
| Conservation.PrintedOnce | nvptx-as.cc:1026-1029 | every token is printed exactly once, unless it was dropped; dropped ones are not printed. Which ones these are is told by `ShapeFacts.DroppedIsLost` |
| Conservation.AllPrinted | nvptx-as.cc:1026-1029 | the printed statements are all statements made, as a multiset, whatever the order of the variables |
| Conservation.ListsInOrder | nvptx-as.cc:583-598 | the declaration list, the function list and each list of a symbol are in source order |
| Conservation.EveryToken | nvptx-as.cc:769-933 | a token is dropped exactly when no statement covers it |
| RoundTrip.FineStatements | nvptx-as.cc:600-619 | statements that stay apart are tokenised back just when they hold no string with a backslash |
| RoundTrip.LexUnits | nvptx-as.cc:279-450 | what is printed for tokens that stay apart is tokenised into them |
| RoundTrip.LexFails | nvptx-as.cc:462-484 | a string whose backslashes were doubled does not come back |
| RoundTrip.StringAsIs | nvptx-as.cc:462-484 | a string is printed as it is just when it holds no backslash |
| PrintTokenise.PrintTokeniseRoundTrip | nvptx-as.cc:454-494 | for a file whose comments end their line, stand between statements and follow no lone slash on its line: tokenising what is printed gives back kinds and texts of the printed tokens, although the parser changes the flags, exactly when no printed string holds a backslash |
| PrintTokenise.OutputFine | nvptx-as.cc:558-581 | no two printed tokens run into each other, within a statement, between statements, and between lists |
| PrintTokenise.ListSafe | nvptx-as.cc:583-619 | what follows a statement in its list keeps apart from it |
| Process.Run | nvptx-as.cc:956-1029 | the assembler from text, up to its first NUL, to text: the tokens, statements, order and output of the value model, or its error |
| Process.OrderIsSound | nvptx-as.cc:1017-1024 | variables are printed in an order that exists just when the dependencies noted have no circle, holds every symbol once, and puts each after all it depends on. What is noted is told by `FileDeps.NeedsNoted` |
| AssembledFile.OutcomeIs | nvptx-as.cc:956-1029 | how assembling ends, told from the text and its tokens: reading stops at a character outside ASCII; or a variable lacks its name; or variables are initialised with each other in a circle, as the last names of their values say; or the file is assembled |
| AssembledFile.TextIs | nvptx-as.cc:956-1029 | the text printed is exactly the tokens of the file in their places, each as it is written there: the declarations in the order of the file, then the variables, one after another, and the functions last; said without statements or anything the parser keeps |
| AssembledFile.VariablesOrdered | nvptx-as.cc:723-767 | each variable of an assembled file is printed once, and every variable that a value of it names last is printed before it |
| AssembledFile.AppearanceKept | nvptx-as.cc:1012-1024 | where every value names last what appeared before its variable, variables are printed in the order in which they first appear in the file |
| AssembledFile.TokensAre | nvptx-as.cc:279-450 | the tokens of a file are those written in it between blanks, comments apart; its line ends and spaces are told from the gaps |
| AssembledFile.WellFormedConserved | nvptx-as.cc:956-1029 | a well-formed file is assembled exactly when no variables are initialised with each other in a circle, and then every token is printed exactly once |
| Process.TokensConserved | nvptx-as.cc:956-1029 | for every assembled file, in the order really used: a token that belongs to an item is printed exactly once, any other is not printed, and every list is in source order |
| Process.PrintedNulFree | nvptx-as.cc:454-494 | what is printed holds no NUL, so it is read back as a whole |
| Process.AssembledRoundTrip | nvptx-as.cc:956-1029 | the round trip for every assembled file whose comments end their line, stand between statements and follow no lone slash on its line, in the order really used |
| Process.ParsedGraph | nvptx-as.cc:748-751 | the symbols in memory hold the dependency graph of the file |
| Surprises.KeywordErrs | nvptx-as.cc:209-210 | a token of a file is wrongly taken for the keyword `s` exactly when it begins with another character than a dot and goes on with `s`; no directive is ever mistaken |
| Surprises.NameMakesDeclaration | nvptx-as.cc:818-918 | a name such as `xfunc` in the header of an initialised variable makes it a declaration, and what follows the `=` on the line is dropped where it begins with neither a directive nor a comment |
| Surprises.CommentBeforeBody | nvptx-as.cc:664-718 | a comment between a header and its `{` is taken as the body, and the line of the brace is dropped |
| Surprises.BodyLost | nvptx-as.cc:859-931 | a file that is assembled while the braces of its only function are not printed |
| Surprises.BackslashChanged | nvptx-as.cc:462-484 | a well-formed file without comments that does not survive printing |
| Surprises.BareCommentLost | nvptx-as.cc:600-613 | a comment printed inside a statement, without its slashes, is never read back as that comment, unless it is blank |
| SymbolOrder.SymbolOrderDeps | nvptx-as.cc:935-954 | the walk over pending and emitted flags computes the depth-first order of the graph |
| SymbolOrder.OrderSymbols | nvptx-as.cc:1017-1024 | so does the loop over all symbols |
| SymbolOrder.OrderCorrect | nvptx-as.cc:935-954 | ordering succeeds exactly on acyclic dependencies and then gives every symbol once, after all it depends on |
| SymbolOrder.OrderStable | nvptx-as.cc:1012-1024 | if the order of appearance already respects the dependencies, it is kept |
| DoublyLinkedList.List.Append | include/doubly-linked-list.h:75-88 | appends to the represented sequence; links, ends and size stay right |
| DoublyLinkedList.List.Prepend | include/doubly-linked-list.h:98-111 | prepends to it |
| DoublyLinkedList.List.InsertBefore | include/doubly-linked-list.h:124-143 | inserts at a position, at either end or between |
| DoublyLinkedList.List.PopFront | include/doubly-linked-list.h:151-171 | removes and returns the first node, or null |
| DoublyLinkedList.List.PopBack | include/doubly-linked-list.h:179-200 | removes and returns the last node, or null |
| DoublyLinkedList.List.Remove | include/doubly-linked-list.h:208-230 | removes a node and returns the one before it |
| DoublyLinkedList.List.Swap | include/doubly-linked-list.h:239-276 | exchanges exactly two positions, whether distant, adjacent in either order, at the ends, or the same |
| DoublyLinkedList.SwapLists | include/doubly-linked-list.h:285-306 | exchanges two lists |
| MergeSort.ComputeTurtle | include/doubly-linked-list.h:350-364 | the middle of a list; both halves are strictly shorter |
| MergeSort.Merge | include/doubly-linked-list.h:393-421 | merges two lists by relinking their nodes |
| MergeSort.MergeSort_ | include/doubly-linked-list.h:427-447 | sorts the nodes of a list in place, and ends |
| MergeSort.MergeSort | include/doubly-linked-list.h:453-467 | sorts a wrapper: links, ends and size are right afterwards |
| MergeSort.SortCorrect | include/doubly-linked-list.h:331-467 | for every total preorder the result ascends, is a permutation of the same nodes, and keeps equal ones in order |
| LongLong.AddSsaaaa | include/longlong.h:1636-1644 | double-word sum modulo the double-word base, for every half-word size |
| LongLong.SubDdmmss | include/longlong.h:1646-1654 | double-word difference |
| LongLong.UmulPpmm | include/longlong.h:1669-1694 | the exact double-word product, despite the carry inside |
| LongLong.CorrectDigit | include/longlong.h:1712-1719 | the two corrections, told by wraparound, subtract exactly what the estimate is too large by |
| LongLong.DivideDigit | include/longlong.h:1707-1719 | one digit of the quotient, exact |
| LongLong.UdivQrnndC | include/longlong.h:1703-1739 | exact division of two words by a normalised one, for every even word size |
| LongLong.MultiplyAddDivide | include/longlong.h:1636-1739 | multiplying, adding and dividing gives back quotient and remainder |
| Leb128.ReadUleb128ToUint64 | include/leb128.h:53-76 | the value modulo 2^64 and the number of bytes, or 0 exactly when no byte ends the number |
| Leb128.ReadSleb128ToInt64 | include/leb128.h:86-111 | the same with sign |
| Leb128.SkipLeb128 | include/leb128.h:119-134 | the number of bytes, or 0 exactly when no byte ends the number |
| Leb128.EncodedUnsigned | include/leb128.h:53-76 | the encoding of section 7.6 of DWARF Version 5 has the value encoded, and at most k bytes for 7k bits |
| Leb128.EncodedSigned | include/leb128.h:86-111 | the same with sign |
| Leb128.UlebRoundTrip | include/leb128.h:53-134 | decoding an encoded uint64, with any bytes after it, gives it back, and skipping it as many bytes |
| Leb128.SlebRoundTrip | include/leb128.h:86-134 | the same for int64 |

## Left out

- Reading and writing files, options, messages, library paths, the archive format and the order of libraries: the linker takes the scanned files as a sequence of names and contents, and its output is a string.
- The hash table of libiberty: a map from names to entries, with the entries in order of creation.
- `std::sort` of the constructors: insertion by the same comparison, which `GlobalCtors.SortingIsUnique` shows to give the only possible list. Sorting and printing in nvptx-nm are not part of the model.
- Releasing memory, growing buffers, and the pool statements are taken from.
- Verifying the preamble and the output of nvptx-as (nvptx-as.cc:496-554, 985-993): shallow checks and calls of other programs.
- CUDA, NVRTC and nvJitLink: calls into code that is not part of this model.
- Inline assembly variants and `count_leading_zeros` of include/longlong.h.
- Leb128.ReadUleb128ToUint64: not modelled for numbers of more than ten bytes, where C leaves the shift undefined.
- Leb128.ReadSleb128ToInt64: not modelled for numbers of more than ten bytes, for the same reason.
- Tokenizer.Tokenize: not modelled for text with an unclosed comment (the code does not end), an unclosed string (the code may read past the end), or a token of 65536 characters or more (its stored length wraps).
- PrintTokenise.PrintTokeniseRoundTrip: not stated for files with a comment inside a statement, which the code prints without its slashes, with a comment that shares its line with what follows, which would become part of it, or with a lone slash directly before a comment, which would make another comment with it.
- Process.AssembledRoundTrip: not stated for the same files.
- Assembler.Parser.ParseWhole: not modelled for files on which the parser reads past its tokens, such as an instruction without `;`.
- GlobalCtors.CollectCdtors: priorities that overflow a long are read as numbers of any size; only five digits are accepted anyway.
