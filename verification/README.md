# Baken OS: verified models

Models, in Dafny, of the parts of Baken OS whose correctness cannot be seen by reading one function,
with proofs that hold for all inputs and all runs.

* **The Sotlas compiler** (`Sotlas*.dfy`). The
  classes `Lexer`, `Parser` and `CodegenC` are the code, with its fields and loops; each method is proved
  equal to a function of the source text, the token list or the syntax tree, and the theorems are about
  those functions: the lexer accepts exactly the texts tiled by the written lexicon, the parser exactly the
  token lists spelled by the written grammar, the lines that are emitted read back as the lowered body, and
  an expression is printed as a C expression of the same value, or one that parses back. `defer` is lowered by copying; source and lowered code share one statement language
  whose meaning is relative to an arbitrary interpretation of expressions.
* **The production frontend** (`Rename*.dfy`, `Safety*.dfy`, `Extern*.dfy`). Renaming of locals that are C
  keywords, in place over syntax nodes that may be shared, with an evaluator of the named programs; the
  pass that restricts unsafe operations, against typing and safety rules stated apart from it; the rewriting of `extern` declarations, with a grammar of what is
  rewritten and a stack machine for the brackets.
* **The module driver and the audit** (`ModuleGraph.dfy`, `Brace*.dfy`, `PostCutoverAudit.dfy`).
* **The UEFI handoff** (`Uefi*.dfy`). Firmware is a strategy whose every reply is a function of the
  history of calls, so that a theorem for all strategies is a theorem about any firmware (sections 7.2.3
  and 7.4.6 of UEFI 2.10). Every call is recorded in a trace, and the record
  of the handoff is stated as what the replies in the trace make it. Progress is proved against firmware that
  keeps a memory map, which its own calls and the rest of the machine enlarge and change.
* **The disk images** (`DiskBytes.dfy`, `Fat*.dfy`, `Installed*.dfy`, `LongNames.dfy`). Buffers are
  arrays that are written in place; each builder is proved equal to a function that composes the writes,
  and a reader that sees only the bytes gets back what was stored.

## What turned out not to hold

* Printed expressions do not always parse back: `(co - owned)` lexes to one compound keyword
  (`SotlasTheorems.CoMinusOwned`). `SotlasTheorems.PrintedTextParses` gives the exact condition.
* The C of an expression does not always have its value. A bit range of all 64 bits shifts by 64
  (`SotlasCAgreement.SlitExact`); the block of a slice declares `_b` and captures a variable of that name
  (`SotlasCAgreement.SliceCaptures`, `SotlasCAgreement.SliceOfB`); a leading zero makes a number octal
  (`SotlasCValues.LiteralKeepsValue`, `SotlasCValues.OctalMatters`); and texts are printed without escapes
  (`SotlasCValues.TextKeepsContents`). These conditions are exact, each on its own.
* The documentation (docs/sotlas_bootstrap.md:17-20) has the defers of a block run when that block is left.
  The emitter keeps one stack for a function, so a nested defer stays on it (`SotlasDeferLimits.NestingMatters`),
  and copies of a defer see locals declared since (`SotlasDeferLimits.ShadowingMatters`). The model follows the
  code. For bodies with defers at the top level, `SotlasDeferSound.SafeBody` is the exact condition
  (`SotlasDeferExact.DeferLoweringExact`); it can be checked before lowering.
* Renaming goes by text: a keyword that names a local and, outside its scope, a global, is renamed in both
  places. `RenameMeaning.SanitizeKeepsMeaning` says exactly when that happens, and
  `RenameRuns.SharedKeywordMatters` gives a function that returns something else afterwards.
* The braces of an `extern` group are dropped, so brackets that only match through them no longer do
  (`ExternBalance.BalanceCanBreak`); `ExternBalance.GroupKeepsBalance` is the exact condition.
* `reserve_raw_lba` accepts clusters up to 0xFFF6, but the tables have 32768 entries: beyond that the copies
  become different (`Fat16Builder.ReservedAgrees`). No sector of the 131072-sector disk is affected
  (`Fat16Builder.DiskSectorsAreInTable`), so neither of the two sectors that the source reserves is; the first
  that would be is 133401 (`Fat16Builder.FirstSectorBeyond`).
* Reserving a sector does not say that its cluster was taken already: the two raw records are apart from all
  files only as long as no more than 1463 clusters are in use (`Fat16Runs.RecordsOfTheDisk`).
* Long names of 64 slots or more have ordinals that run into the last-slot mark (`LongNames.OrdinalsUpTo63`,
  and `LongNames.SixtyFourSlots` for 831 letters).
* A memory range that ends exactly at 2^64 counts as wrapped and is never translated (`UefiTranslate.Match`).

## Model

| member | source | states |
|---|---|---|
| `SotlasSpacing.LexingIsStable` | tools/sotlas/lexer.py:54-61 | for every source that tokenizes, lexing its token texts again, with any blanks and comments between and around them, gives the same kinds and texts, the fused `co-owned` included |
| `SotlasTrivia.SkipIsTrivia` | tools/sotlas/lexer.py:81-104 | skipping ends at an offset if and only if the text up to it is blanks, line comments up to a newline or the end, and closed block comments, and no more of them start there |
| `SotlasTrivia.OpenIsUnclosed` | tools/sotlas/lexer.py:81-104 | it fails at an offset if and only if such text is followed there by a block comment that is never closed |
| `SotlasTrivia.CommentsAreTrivia` | tools/sotlas/lexer.py:81-104 | each kind of comment and blank, as a text, is skipped whole |
| `SotlasLexicon.ScanIsLongestToken` | tools/sotlas/lexer.py:118-350 | a token is read if and only if the text there is a token of the written lexicon and no longer one is |
| `SotlasLexicon.RejectedIsNoToken` | tools/sotlas/lexer.py:118-350 | reading a token fails if and only if no token of the lexicon starts there |
| `SotlasLexicon.StripIs` | tools/sotlas/lexer.py:274-310 | a number keeps all its characters but the underscores, in order |
| `SotlasLexicon.EscapesAre` | tools/sotlas/lexer.py:106-117 | each escape stands for the character that the language gives it, any other for itself |
| `SotlasTiling.LexedIsTiled` | tools/sotlas/lexer.py:54-61 | before fusing, the tokens of a source are a given list if and only if the source is blanks and comments, the longest tokens of that list, and nothing else, one behind the other |
| `SotlasTiling.ErrorIsBreak` | tools/sotlas/lexer.py:54-61 | lexing fails at an offset if and only if the source is so tiled up to it and neither a token nor trivia goes on there |
| `SotlasLexing.MaximalMunch` | tools/sotlas/lexer.py:140-268 | wherever an operator is spelled one is read, and none spelled there is longer |
| `SotlasLexing.OperatorFits` | tools/sotlas/lexer.py:140-268 | an operator token is the text it is read from, and the table's spelling of its kind |
| `SotlasLexStability.ScansBack` | tools/sotlas/lexer.py:118-318 | a token text in front of something that cannot continue it is read back as that token |
| `SotlasLexStability.ScannedIsPlain` | tools/sotlas/lexer.py:118-318 | every token read has a text that reads back as itself |
| `SotlasLexer.PositionCounts` | tools/sotlas/lexer.py:71-79 | the line is one more than the newlines before the offset, the column counts from the last of them |
| `SotlasLexer.Lexer.Advance` | tools/sotlas/lexer.py:71-79 | line and column stay those of the position |
| `SotlasLexer.Lexer.SkipWhitespaceAndComments` | tools/sotlas/lexer.py:81-104 | stops at the first character that is neither blank nor comment; fails at the start of an unclosed comment |
| `SotlasLexer.Lexer.LexNumber` | tools/sotlas/lexer.py:274-310 | reads the longest prefixed, decimal or float literal, underscores dropped, or fails as the language says |
| `SotlasLexer.Lexer.LexIdentOrKeyword` | tools/sotlas/lexer.py:312-318 | reads the longest identifier and looks it up among the keywords |
| `SotlasQuoted.StringIsPieces` | tools/sotlas/lexer.py:320-334 | behind an opening quote a string is read if and only if plain characters and escapes up to a closing quote stand there; its value is theirs, and reading ends behind the quote |
| `SotlasQuoted.QuotedReads` | tools/sotlas/lexer.py:106-117 | every text, written with escapes between quotes, is read back as that text |
| `SotlasQuoted.CharIsPiece` | tools/sotlas/lexer.py:336-350 | a character literal is read if and only if exactly one character or escape stands between single quotes, and has its value |
| `SotlasQuoted.EveryCharacterReads` | tools/sotlas/lexer.py:336-350 | every character can be written as a literal that is read back as it |
| `SotlasLexer.Lexer.NextToken` | tools/sotlas/lexer.py:118-272 | the token behind blanks and comments, with the line and column of its first character |
| `SotlasLexer.Lexer.ResolveCompound` | tools/sotlas/lexer.py:352-369 | every `co` `-` `owned`, from left to right, becomes one token at the position of its first |
| `SotlasLexer.Lexer.Tokenize` | tools/sotlas/lexer.py:54-61 | all tokens of the source with their positions counted from its text, or the first error and where it is |
| `SotlasTheorems.PrintedTextParses` | tools/sotlas/codegen_c.py:556-579 | the C text of every shared expression parses to the tree it came from, if and only if no operand ending in `co` meets a minus and one starting with `owned`; otherwise it does not parse |
| `SotlasPrintLex.PrintedWords` | tools/sotlas/codegen_c.py:556-579 | the printed text lexes to the tokens of the tree |
| `SotlasTheorems.FusionIsClash` | tools/sotlas/lexer.py:352-369 | the fusing of `co-owned` happens in a printed text exactly where the tree shows it |
| `SotlasRoundTrip.OperandParses` | tools/sotlas/parser.py:850-965 | a printed operand is read back whole by the unary parser, whatever may follow an operand |
| `SotlasRoundTrip.ExprParses` | tools/sotlas/parser.py:832-848 | a printed expression in front of a closing token is read back whole |
| `SotlasTheorems.CoOwnedNeverParses` | tools/sotlas/parser.py:832-965 | no expression contains the fused keyword: what has it does not parse |
| `SotlasTheorems.CoMinusOwned` | tools/sotlas/codegen_c.py:556-579 | `(co - owned)` is the printed text of a shared expression and does not parse |
| `SotlasCAgreement.PrintedIsC` | tools/sotlas/codegen_c.py:556-645 | the text of every expression without `??` and optional chains is the text of a tree that keeps the precedence rules of C; whenever the expression has a value, and it is clear, the tree has that value on every machine of 64 bits |
| `SotlasCAgreement.ValuesAgree` | tools/sotlas/codegen_c.py:556-645 | literals, names, operators (the two lazy ones decided by their first operand), calls, fields, elements, bits, byte order, tuples, slices, structures and choices: the C tree is worth what the expression is |
| `SotlasCAgreement.SlitExact` | tools/sotlas/codegen_c.py:580-585 | the C of a bit range gives the bits from the low to the high end, both included, if and only if they are not all 64 |
| `SotlasCAgreement.SliceCaptures` | tools/sotlas/codegen_c.py:613-617 | the block that is printed for a slice does not depend on what `_b` is outside it |
| `SotlasCAgreement.SliceOfB` | tools/sotlas/codegen_c.py:613-617 | a slice of a variable `_b` has no value in C |
| `SotlasCValues.TreesAreC` | tools/sotlas/codegen_c.py:556-645 | the trees keep the rules of C on precedence and on initializers |
| `SotlasCValues.LiteralKeepsValue` | tools/sotlas/codegen_c.py:643-645 | an integer literal has the same value in C if and only if it has no leading zero or is below 8 |
| `SotlasCValues.OctalMatters` | tools/sotlas/codegen_c.py:643-645 | `010` is ten, and eight in C |
| `SotlasCValues.TextKeepsContents` | tools/sotlas/codegen_c.py:639-642 | a printed string or character stands for itself in C if and only if it has no quote of its kind, backslash or newline |
| `SotlasCText.PrintIs` | tools/sotlas/codegen_c.py:556-645 | the printed text is that of the C tree, character by character |
| `SotlasChains.ChainParses` | tools/sotlas/parser.py:835-848 | a chain of operands parses to the left fold of its operands, whatever the operators are |
| `SotlasChains.ChainTextParses` | tools/sotlas/parser.py:835-848 | the text of a chain without parentheses parses to the left fold, if and only if nothing fuses in it |
| `SotlasFormYields.ParserIsGrammar` | tools/sotlas/parser.py:832-1065 | the parser makes a tree of a token list if and only if the list is spelled by a form of the written grammar with that tree: trailing commas, labels, `& mut`, paths, repeats and else-if included |
| `SotlasFormYields.OneTree` | tools/sotlas/parser.py:832-1065 | a token list is spelled by forms of one tree only |
| `SotlasGrammar.GrammarIsWhatParses` | tools/sotlas/parser.py:832-1065 | a tree satisfies the conditions on trees if and only if the parser yields it for some token list |
| `SotlasFormParses.ExprParses` | tools/sotlas/parser.py:832-848 | every form, in front of what cannot continue it, is read whole as its tree |
| `SotlasParser.Parser.Expression` | tools/sotlas/parser.py:832-833 | moves the position exactly as the grammar function says, or stops with the same fault |
| `SotlasParser.Parser.BinaryChain` | tools/sotlas/parser.py:835-848 | operands are combined from the left, with no precedence |
| `SotlasParser.Parser.UnaryExpr` | tools/sotlas/parser.py:850-858 | a prefix operator applies to the operand behind it; `& mut` drops the mut |
| `SotlasFormParses.SignedParses` | tools/sotlas/parser.py:850-858 | operators in front of an operand, with a mut behind the ampersand or without, are read as written |
| `SotlasParser.Parser.Postfix` | tools/sotlas/parser.py:860-928 | suffixes are applied from left to right until none follows |
| `SotlasFormParses.BitsParses` | tools/sotlas/parser.py:866-873 | a bit range is read back with its base, its low and its high end |
| `SotlasFormParses.BitParses` | tools/sotlas/parser.py:874-879 | a single bit is read back with its base and position |
| `SotlasFormParses.DottedParses` | tools/sotlas/parser.py:880-894 | a field, and a tuple position with its decimal value, are read back |
| `SotlasFormParses.MethodParses` | tools/sotlas/parser.py:888-894 | a method call with its arguments is read back |
| `SotlasFormParses.CutParses` | tools/sotlas/parser.py:895-910 | a slice is read back with the ends that it has, all four combinations |
| `SotlasFormParses.IndexedParses` | tools/sotlas/parser.py:895-910 | an index is read back with its base |
| `SotlasParser.Parser.CallArguments` | tools/sotlas/parser.py:911-915 | an argument list between parentheses |
| `SotlasParser.Parser.ArgList` | tools/sotlas/parser.py:1047-1056 | arguments separated by commas, one trailing comma allowed |
| `SotlasFormParses.ArgParses` | tools/sotlas/parser.py:1058-1065 | an argument is read back with its label, or without one |
| `SotlasFormParses.AppliedParses` | tools/sotlas/parser.py:911-915 | a call is read back with all its arguments in order, with a trailing comma or without |
| `SotlasParser.Parser.Primary` | tools/sotlas/parser.py:930-1045 | dispatch on the first token; anything else is an error there |
| `SotlasFormParses.AtomParses` | tools/sotlas/parser.py:930-941 | literals, and `self` and `super` as names, are read back |
| `SotlasFormParses.PathParses` | tools/sotlas/parser.py:943-965 | a path of any length is read back, and is no structure literal |
| `SotlasFormParses.StructParses` | tools/sotlas/parser.py:943-965 | a structure literal is read back with its path and its fields in order, whichever commas are left out |
| `SotlasFormParses.TupleParses` | tools/sotlas/parser.py:967-982 | a tuple of any length is read back, unit and the tuple of one included, with a trailing comma or without |
| `SotlasFormParses.ArrayParses` | tools/sotlas/parser.py:984-1004 | an array literal of any length is read back, with a trailing comma or without |
| `SotlasFormParses.RepeatParses` | tools/sotlas/parser.py:988-997 | a repeated element becomes as many copies as a decimal count says, one if the count is no integer literal |
| `SotlasFormParses.ChoiceParses` | tools/sotlas/parser.py:1006-1019 | an if expression is read back with its condition and both values, and an if behind else as the else value |
| `SotlasDeferTheorem.DeferLoweringSound` | tools/sotlas/codegen_c.py:316-340 | for every body with defers at the top level whose reachable exits are clear, every interpretation of expressions, all arguments and every bound on loops, the emitted body has the same effects in the same order and ends in the same way with the same value |
| `SotlasDeferExact.DeferLoweringExact` | tools/sotlas/codegen_c.py:316-340 | with defers at the top level, the emitted body does what the source does under every interpretation and for all arguments, if and only if at every exit that can be reached no copy of a defer meets a newer local of a name that it takes from outside |
| `SotlasDeferExact.ReturnDiffers` | tools/sotlas/codegen_c.py:428-451 | at every return that is not clear there are arguments and answers for which the emitted code does something else |
| `SotlasDeferTheorem.ReturnValueSound` | tools/sotlas/codegen_c.py:428-438 | a return with a value computes it first, then runs the registered defers newest first, then returns that value |
| `SotlasDeferTheorem.InlineSound` | tools/sotlas/codegen_c.py:432-437 | the copied defers, run among the bindings in scope at a return, do what each does in its own scope |
| `SotlasDeferSound.ExecGap` | tools/sotlas/codegen_c.py:358-460 | code is not affected by bindings of names that it does not take from outside |
| `SotlasDeferSound.ExecFlow` | tools/sotlas/codegen_c.py:358-460 | a statement list returns or jumps out only if it holds a return or a jump |
| `SotlasDeferLimits.ShadowingMatters` | tools/sotlas/codegen_c.py:426-451 | a local declared after a defer and in scope at a return is captured by the copy of the defer |
| `SotlasDeferLimits.NestingMatters` | tools/sotlas/codegen_c.py:426-427 | a defer in a block that is never entered runs at later returns, as the stack belongs to the function |
| `SotlasEmitter.CodegenC.EmitFn` | tools/sotlas/codegen_c.py:316-340 | writes the lines of the lowered body, the defers left on the stack behind it, and restores the stack of the enclosing function |
| `SotlasLines.FunctionReads` | tools/sotlas/codegen_c.py:316-340 | a reader of lines that goes by their literal texts and indentation gets from the lines of a function exactly its lowered body, loops, branches and jumps with the texts of their expressions |
| `SotlasLines.AssignIsSpelled` | tools/sotlas/codegen_c.py:49-54 | an assignment is written with the spelling that the lexer has for its operator |
| `SotlasEmitter.CodegenC.EmitStmt` | tools/sotlas/codegen_c.py:358-460 | writes the lines of the lowered statement and leaves the stack that lowering says |
| `SotlasEmitter.CodegenC.EmitIf` | tools/sotlas/codegen_c.py:510-528 | an if with its else and else-if parts, the indentation restored |
| `SotlasEmitter.CodegenC.EmitReturn` | tools/sotlas/codegen_c.py:428-451 | value into a temporary, defers newest first, then the return; a plain return if nothing is deferred |
| `SotlasEmitter.CodegenC.EmitDefers` | tools/sotlas/codegen_c.py:332-337 | the code of the registered defers, last registered first |
| `SotlasEmitter.SimpleIsKept` | tools/sotlas/codegen_c.py:332-337 | statements without returns and defers are emitted unchanged, so copying a defer is emitting it |
| `RenameMeaning.SanitizeKeepsMeaning` | tools/sotlas_compile/frontend_extensions.py:279-289 | renaming leaves every name bound to the declaration it was bound to, if and only if no keyword that names a local is also used outside that local's scope |
| `RenameMeaning.FindRenamed` | tools/sotlas_compile/frontend_extensions.py:39-42 | a name keeps its place in the renamed scope; only a renamed name that is free changes its meaning |
| `RenameMeaning.NewNamesMatter` | tools/sotlas_compile/frontend_extensions.py:39-42 | if the new name is already a local's, the renamed use is captured by it |
| `RenameRuns.SanitizeKeepsRuns` | tools/sotlas_compile/frontend_extensions.py:279-289 | on every machine, for all arguments and every bound on loops, the renamed function does and returns what the function did, if no keyword that names a local is used outside that local's scope |
| `RenameRuns.RunFactors` | tools/sotlas_compile/frontend_extensions.py:279-289 | what a function does depends only on which declaration each name is bound to |
| `RenameRuns.SharedKeywordMatters` | tools/sotlas_compile/frontend_extensions.py:39-42 | a function with `int` as a local of a block and as a global returns something else after the renaming |
| `RenameTrees.SanitizedHasNoKeyword` | tools/sotlas_compile/frontend_extensions.py:25-42 | no parameter, let or for variable is a C11 keyword afterwards |
| `RenameTrees.SanitizedLocals` | tools/sotlas_compile/frontend_extensions.py:191-204 | the locals afterwards are the old ones, each under its safe name |
| `RenameTrees.SanitizeIsIdempotent` | tools/sotlas_compile/frontend_extensions.py:291-315 | running the pass again, for the header and for the C file, changes nothing |
| `RenameInPlace.RenameExpr` | tools/sotlas_compile/frontend_extensions.py:206-242 | every node below, however often it is reached, ends with its name renamed once, and no other node changes |
| `RenameInPlace.RenameStatements` | tools/sotlas_compile/frontend_extensions.py:244-277 | the same for statements, their expressions and their blocks |
| `RenameInPlace.BlockTreeRenamed` | tools/sotlas_compile/frontend_extensions.py:244-277 | renaming the nodes in place, shared or not, renames the tree |
| `RenameInPlace.CollectLocalNames` | tools/sotlas_compile/frontend_extensions.py:191-204 | the let and for variables at any depth, defers included |
| `RenameInPlace.FunctionNode.SanitizeLocals` | tools/sotlas_compile/frontend_extensions.py:279-289 | the function becomes its sanitized form |
| `SafetySites.InferMeaning` | tools/sotlas_compile/language_safety.py:219-332 | checking stops at the first restricted operation without its permission, and otherwise gives a type that depends neither on the depth nor on @system |
| `SafetyTypes.TypesAreRules` | tools/sotlas_compile/language_safety.py:219-332 | an expression is given a type if and only if the typing rules do: names by their innermost declaration, literals, pointers, elements, fields, results, methods and casts |
| `SafetyChecker.StrictSafetyChecker.Statements` | tools/sotlas_compile/language_safety.py:334-369 | reports the first operation, in order, that has no unsafe around it or no @system function, with let and for scopes; nothing otherwise |
| `SafetyChecker.StrictSafetyChecker.Check` | tools/sotlas_compile/language_safety.py:208-217 | accepts exactly the modules in which every raw dereference, index, field, method call and pointer creation and every unsafe foreign call is inside unsafe, and every foreign or privileged call is in an @system function |
| `SafetyRules.AcceptedIsSafe` | tools/sotlas_compile/language_safety.py:208-217 | a module is accepted if and only if all its functions are safe by rules that mention types by the typing rules only |
| `SafetyRules.RawParameterIsRefused` | tools/sotlas_compile/language_safety.py:334-369 | a function that dereferences a raw parameter, not declared again before, outside unsafe is refused, whatever else the module holds |
| `SafetyRules.RawLocalIsRefused` | tools/sotlas_compile/language_safety.py:334-369 | so is one that dereferences a local declared raw |
| `SafetyMonotone.MoreUnsafeExpr` | tools/sotlas_compile/language_safety.py:219-332 | an accepted expression keeps its type deeper inside unsafe or in an @system function |
| `SafetyMonotone.MoreUnsafeBlock` | tools/sotlas_compile/language_safety.py:334-369 | an accepted block is accepted deeper inside unsafe or in an @system function |
| `SafetySites.NeverRefused` | tools/sotlas_compile/language_safety.py:219-332 | nothing is refused inside unsafe in an @system function |
| `ExternForms.StreamNormalizes` | tools/sotlas_compile/language_safety.py:134-171 | a well-formed stream is rewritten item by item: other tokens stay, each declaration is replaced on its own |
| `ExternForms.GroupIsSingles` | tools/sotlas_compile/language_safety.py:154-170 | a braced group comes to the same kinds and texts as its declarations one by one |
| `ExternForms.WithoutExternUnchanged` | tools/sotlas_compile/language_safety.py:134-140 | a stream without the word extern is unchanged |
| `ExternOutput.DeclarationGrammar` | tools/sotlas_compile/language_safety.py:73-131 | what is accepted is exactly modifiers (attributes, unsafe, at most one pub), a signature that starts with fn and closes its brackets, and a semicolon |
| `ExternOutput.OutIs` | tools/sotlas_compile/language_safety.py:101-126 | a declaration becomes its attributes in order, the extern and export marks, the unsafe mark if it had one, its pub if it had one, its signature verbatim and an empty body |
| `ExternTokens.AbiIsC` | tools/sotlas_compile/language_safety.py:58-70 | the only text that is accepted as ABI is "C" in quotes; a text without quotes names no ABI, any other is not supported |
| `ExternBalance.StreamKeepsBalance` | tools/sotlas_compile/language_safety.py:134-171 | the rewritten stream is balanced, every bracket closed by its own kind in order, if and only if the stream was, when the declarations of each group are |
| `ExternBalance.GroupKeepsBalance` | tools/sotlas_compile/language_safety.py:154-170 | a rewritten group is balanced if and only if its declarations are |
| `ExternBalance.BalanceCanBreak` | tools/sotlas_compile/language_safety.py:154-170 | a balanced group whose rewriting is not balanced |
| `ExternBalance.StreamExterns` | tools/sotlas_compile/language_safety.py:134-171 | the word extern is left only where a declaration had it inside |
| `ExternForms.DeclarationHere` | tools/sotlas_compile/language_safety.py:73-131 | a declaration is read alike wherever it stands, and the index moves behind it |
| `ExternTokens.CopyExternDecl` | tools/sotlas_compile/language_safety.py:73-131 | one declaration rewritten and the index behind it, or the fault and the token it is reported at |
| `ExternTokens.NormalizeExternTokens` | tools/sotlas_compile/language_safety.py:134-171 | the whole stream rewritten, or the first fault |
| `ModuleGraph.ValidateAllCycles` | tools/sotlas_compile/compiler.py:99-116 | fails exactly when the import graph has a cycle, with a cycle of the graph |
| `ModuleGraph.Analyze` | tools/sotlas_compile/compiler.py:143-177 | without a cycle: the order has no duplicates, holds exactly what the entry reaches, imports first; every other module is reachable from an orphan root |
| `ModuleGraph.Walk.Visit` | tools/sotlas_compile/compiler.py:143-156 | either a cycle of the graph, or everything the module reaches has been listed once, imports first |
| `ModuleGraph.OrphanAbove` | tools/sotlas_compile/compiler.py:175-177 | above every module that the entry does not reach there is one that nobody imports |
| `ModuleGraph.OrderExcludesCycles` | tools/sotlas_compile/compiler.py:99-116 | modules listed imports first cannot be on a cycle |
| `BraceScanners.ScannersAgree` | tools/sotlas_compile/compiler.py:282-351 | for any opening brace that the first scanner meets at depth 0, the second returns the first later top-level offset, a closing brace, and fails if and only if there is none |
| `BraceScanners.TopLevelOffsets` | tools/sotlas_compile/compiler.py:282-316 | the code offsets at depth 0 outside comments and literals |
| `BraceScanners.MatchingBrace` | tools/sotlas_compile/compiler.py:318-351 | the brace that brings the depth back to 0, or none |
| `BraceText.TopLevelIsCode` | tools/sotlas_compile/compiler.py:282-316 | however a text is made of code, comments and literals, closed or not, the first scanner gives the offsets of the code at depth 0 |
| `BraceText.MatchingIsCode` | tools/sotlas_compile/compiler.py:318-351 | and the second the closing brace in the code that ends the open blocks |
| `BraceText.PiecesOf` | tools/sotlas_compile/compiler.py:282-351 | every text is made of such pieces |
| `PostCutoverAudit.Audit` | tools/scripts/audit_post_cutover.py:21-44 | terminates on any call graph; seen are exactly the reachable names, opaque those without definition, reported exactly the forbidden words in reachable bodies |
| `PostCutoverAudit.Scan` | tools/scripts/audit_post_cutover.py:36-41 | all definitions of a name are searched, and all names they call become pending except the language's keywords |
| `UefiHandoffSafety.HandoffIsOrderly` | boot/uefi_exit_boot_services.h:174-220 | against any firmware and callback: each ExitBootServices comes right behind the callback and that right behind a successful GetMemoryMap for the same map and key; nothing follows a successful exit; success is reported if and only if the last call was one |
| `UefiHandoffSafety.HandoffIsBounded` | boot/uefi_exit_boot_services.h:188-219 | at most eight exit attempts and 35 firmware calls |
| `UefiProgress.HandoffProgress` | boot/uefi_exit_boot_services.h:188-219 | against firmware that keeps a map and a key as the specification says: success if and only if fewer than eight attempts missed, every miss was an attempt in which the rest of the machine outgrew the slack or changed the key, and fewer than eight such attempts mean success |
| `UefiProgress.AttemptProgress` | boot/uefi_exit_boot_services.h:188-219 | an attempt ends with success, or the rest of the machine disturbed it and the next one starts with a buffer of the new size |
| `UefiProgress.TooLargeIsOutgrown` | boot/uefi_exit_boot_services.h:103-139 | if the map does not fit the reserved buffer, the rest of the machine enlarged it by more than 32 descriptors and 8192 bytes, less what the handoff's own calls can add |
| `UefiHandoffSafety.HandoffOwnsOneBuffer` | boot/uefi_exit_boot_services.h:103-139 | one live buffer, two while it is replaced, none freed twice and none used after being freed |
| `UefiHandoffSafety.AttemptCounts` | boot/uefi_exit_boot_services.h:188-219 | at most four firmware calls and one exit in an attempt; another one follows only a call that failed in one of the two ways that can pass |
| `UefiHandoff.PrepareFinalMemoryMap` | boot/uefi_exit_boot_services.h:103-139 | the calls made, the status and the record afterwards, for every reply and every NULL |
| `UefiHandoff.RefreshFinalMemoryMap` | boot/uefi_exit_boot_services.h:142-167 | the same for reading the map into the reserved buffer |
| `UefiHandoff.ExitBootServicesFinal` | boot/uefi_exit_boot_services.h:174-220 | the whole run: status, record and all calls, in order |
| `UefiRecord.HandoffKeepsRecord` | boot/uefi_exit_boot_services.h:142-220 | in every run, whatever it ends with, the record left behind is what the replies in the trace make it, field by field, failed and too small reads included, and every call is made with what the record says at that moment |
| `UefiRecord.CallbackSeesReply` | boot/uefi_exit_boot_services.h:188-205 | each callback is shown the buffer, size, key, descriptor size and version that the firmware gave in the call right before it, and after success the record still is what the last callback was shown |
| `UefiRecord.HandoffReports` | boot/uefi_exit_boot_services.h:103-220 | the status is that of the call that ended the handoff; nothing is called when a service is missing |
| `UefiTranslate.LookupMeaning` | boot/uefi_exit_boot_services.h:65-101 | a non-zero answer is in the physical range of the first covering descriptor at the same offset; zero means nothing covers the address or its image is 0 |
| `UefiTranslate.TableReads` | boot/uefi_exit_boot_services.h:65-101 | descriptors written by the layout of the specification, of any size of at least 40 bytes, are read as they are, in order |
| `UefiTranslate.Match` | boot/uefi_exit_boot_services.h:83-98 | the wrapping tests accept exactly the ranges that end below 2^64 and hold the address |
| `UefiTranslate.PhysicalAddress` | boot/uefi_exit_boot_services.h:65-101 | the first match in the table of descriptors, one every descriptor_size bytes, or 0 |
| `Fat12.GetSet` | tools/scripts/create_uefi_iso.py:75-82 | reading an entry after the write gives the value written |
| `Fat12.GetSetOther` | tools/scripts/create_uefi_iso.py:75-82 | every other entry is as before, also the one that shares a byte |
| `Fat12.SetFat12` | tools/scripts/create_uefi_iso.py:75-82 | the two bytes of the entry are rewritten and nothing else |
| `Fat12Reads.ImageReads` | tools/scripts/create_uefi_iso.py:50-125 | for every file that fits: both tables agree, hold its chain ended by 0xFFF and two directories outside it, and looking up /EFI/BOOT/BOOTX64.EFI and following the chain gives back exactly the file |
| `Fat12Reads.ChainReads` | tools/scripts/create_uefi_iso.py:84-88 | the chained clusters hold the file, from any point of the chain on |
| `Fat12Builder.GeometryReads` | tools/scripts/create_uefi_iso.py:29-53 | the layout worked out from the boot sector is the one that was written |
| `Fat12Builder.ImageBoots` | tools/scripts/create_uefi_iso.py:11-125 | for every file that fits, a reader that knows only the bytes, and works out the layout from the boot sector, finds the boot file and gets its bytes |
| `Fat12Builder.CreateFatEfiImage` | tools/scripts/create_uefi_iso.py:11-125 | the image, or failure exactly for an empty file and for one that does not fit with its directories |
| `Fat16Esp.WithFileKeeps` | tools/scripts/create_fat32_img.py:103-123 | writing a file keeps all earlier files readable, the copies of the table equal and the chains apart |
| `Fat16Esp.FileReads` | tools/scripts/create_fat32_img.py:103-123 | following the chain of a file gives back its bytes |
| `Fat16Builder.EspBuilder.WriteFile` | tools/scripts/create_fat32_img.py:103-123 | fails without a trace exactly when the file does not fit; otherwise it is added at the next cluster and reads back |
| `Fat16Builder.EspBuilder.AllocateDirectory` | tools/scripts/create_fat32_img.py:162-176 | the next cluster, ended at once, behind all files |
| `Fat16Builder.ReservedKeeps` | tools/scripts/create_fat32_img.py:125-138 | for a cluster of the table: it is not free afterwards, no other entry changes, and every file still reads back |
| `Fat16Builder.ReservedAgrees` | tools/scripts/create_fat32_img.py:125-138 | the copies of the table stay equal if and only if the cluster is in the table or nothing had to be written: the check against 0xFFF7 lets more through |
| `Fat16Builder.EspBuilder.ReserveRawLba` | tools/scripts/create_fat32_img.py:125-138 | the three refusals, and otherwise an end mark in both copies if the entry was free |
| `Fat16Builder.DiskSectorsAreInTable` | tools/scripts/create_fat32_img.py:125-138 | a sector of the disk that is not refused has its entry in the table |
| `Fat16Builder.FirstSectorBeyond` | tools/scripts/create_fat32_img.py:125-138 | the first sector for which the copies can become different is 133401, behind the end of the disk |
| `Fat16Runs.RunKeeps` | tools/scripts/create_fat32_img.py:103-185 | after any sequence of writes, directories and reservations all files read back, directories are marked and in no file, clusters are handed out once and without gaps, entries in use stay in use, and only what does not fit was refused |
| `Fat16Runs.RecordIsApart` | tools/scripts/create_fat32_img.py:125-138 | the cluster of a reserved sector is in a file or directory if and only if it is below the next cluster |
| `Fat16Runs.RecordsOfTheDisk` | tools/scripts/create_fat32_img.py:184-185 | the two raw records are apart from files and directories if and only if these take at most 1463 clusters |
| `InstalledDisk.BuildThenVerify` | tools/scripts/install_virtual_disk.py:21-37 | for every boot file that fits and every checksum function, the disk that is built passes verification and the file reads back |
| `InstalledDisk.RegionsHold` | tools/scripts/create_installed_disk.py:52-166 | every byte of the disk: partition table and system partition as their writers made them, header, preferences and notes of the data volume whole, and zero everywhere else |
| `InstalledDisk.HeaderVerifies` | tools/scripts/install_virtual_disk.py:25-29 | zeroing the checksum field gives back the 92 bytes the checksum was computed over |
| `InstalledDisk.Verify` | tools/scripts/install_virtual_disk.py:21-37 | the first check that fails, in order |
| `InstalledDisk.AcceptedIs` | tools/scripts/install_virtual_disk.py:21-37 | a disk is accepted if and only if, byte by byte, it has the signature, the checksum over the header but its own four bytes, the label, the name of the boot file in the first 2 MiB and the magic; otherwise the verdict is what is missing first |
| `InstalledDisk.CreateInstalledDisk` | tools/scripts/create_installed_disk.py:169-186 | fails exactly for a file that does not start with MZ or does not fit; what it makes verifies and reads back |
| `InstalledDisk.GptHolds` | tools/scripts/create_installed_disk.py:52-86 | headers and entries are in place at both ends of the disk |
| `InstalledReader.HeadersAreGood` | tools/scripts/create_installed_disk.py:52-86 | read by the offsets of UEFI, both headers are sealed, hold the checksum of their entries, name themselves and each other, and agree on disk, entries and usable blocks, which the tables lie outside of |
| `InstalledReader.PartitionsAreListed` | tools/scripts/create_installed_disk.py:57-68 | the table that the first header names lists the two partitions with their types, identifiers and bounds, and nothing else |
| `InstalledBoot.InstalledDiskBoots` | tools/scripts/create_installed_disk.py:52-144 | a reader that goes from the partition table to the first partition of the system type, works out the layout from its boot sector and follows the directories and the chain gets the boot file |
| `InstalledBoot.GeometryReads` | tools/scripts/create_installed_disk.py:89-119 | the boot sector describes the partition from its place to its end: tables, clusters and root |
| `InstalledBoot.DataVolumeReads` | tools/scripts/create_installed_disk.py:147-166 | in the second listed partition, looking up the two files by name gives the preferences and the notes, padded to a block |
| `InstalledBoot.FilesSay` | tools/scripts/create_installed_disk.py:160-166 | the preferences hold theme 0 and the user, the notes their magic, one note and its title |
| `Fat32Esp.EspReads` | tools/scripts/create_installed_disk.py:89-144 | from the root cluster named in the boot sector, /EFI/BOOT/BOOTX64.EFI and its chain give back the file |
| `Fat32Esp.EspGet` | tools/scripts/create_installed_disk.py:122-130 | every entry of both tables: directories, the chain of the file, and what was there before |
| `LongNames.LongNameReads` | tools/scripts/extend_foundation_fixture.py:27-43 | reading the slots back up to the terminator gives the name |
| `LongNames.LongNameReadsByOrdinal` | tools/scripts/extend_foundation_fixture.py:27-43 | below 64 slots, a reader that goes by ordinals and last-slot mark gets the name from the slots in any order |
| `LongNames.OrdinalsUpTo63` | tools/scripts/extend_foundation_fixture.py:36-38 | ordinals count down to 1 with the mark 0x40 on the first slot only, exactly for names of fewer than 64 slots |
| `LongNames.SixtyFourSlots` | tools/scripts/extend_foundation_fixture.py:36-38 | a name of 831 letters takes 64 slots and its first ordinal byte is the bare mark |
| `LongNames.LongNameMarks` | tools/scripts/extend_foundation_fixture.py:36-41 | attribute, checksum and cluster bytes are what they have to be in every slot |
| `LongNames.PlacesAre` | tools/scripts/extend_foundation_fixture.py:27-43 | the thirteen places of a slot |
| `LongNames.PaddingIs` | tools/scripts/extend_foundation_fixture.py:31-35 | behind the terminator the last slot is filled with 0xFFFF, and no slot is added |
| `LongNames.ChecksumRotates` | tools/scripts/extend_foundation_fixture.py:28-30 | a step of the checksum moves every bit one place down, the lowest to the top, and then adds without the carry |
| `LongNames.ChecksumFolds` | tools/scripts/extend_foundation_fixture.py:28-30 | the checksum starts at zero and takes the bytes from first to last |
| `LongNames.ChecksumNoticesAByte` | tools/scripts/extend_foundation_fixture.py:28-30 | changing any one byte of the alias changes the checksum |
| `LongNames.LongEntries` | tools/scripts/extend_foundation_fixture.py:27-43 | the slots of a name in descending order |

## Left out

- SotlasLexer.Lexer.Tokenize: letters and digits are ASCII; the source asks Unicode. The keyword table is a parameter, any finite map from identifiers to keywords.
- SotlasParser.Parser.Expression: casts, closures and the statement grammar inside closures are reported as outside the model; source positions in syntax trees, the text of error messages, the limit of int() on digits and Python's recursion limit are not modelled.
- SotlasTheorems.PrintedTextParses: covers the expressions that C and Sotlas spell alike (plain names, integers, C-spelled binary operators, `! - ~ * &`, index, field, call without labels); the others are printed in C spellings that Sotlas does not have, and are covered by `SotlasCAgreement.PrintedIsC`.
- SotlasCAgreement.PrintedIsC: numbers are unsigned and of 64 bits; C types and their conversions, and the tokens of C, are not modelled. The condition on names in slices is sufficient for the value to be the same, not necessary.
- SotlasDeferTheorem.DeferLoweringSound: effects reach locals through the variables an expression names, not through pointers kept elsewhere. Redeclaration errors of the C compiler (two returns with a value in one block) are not modelled. Nested defers, and breaks outside loops, are shown to matter by an example and otherwise left out.
- SotlasDeferExact.DeferLoweringExact: bodies in which the variable `_ret_val` by itself is a statement, condition, initial value or return value are covered by `DeferLoweringSound` only; there a captured temporary may happen to hold the right value. Reading any other variable may have effects, as an interpretation may say that it is volatile.
- RenameRuns.SanitizeKeepsRuns: one direction; a keyword shared with a global in code that is never reached changes no run, while the bindings it changes are stated exactly by `RenameMeaning.SanitizeKeepsMeaning`.
- ExternBalance.StreamKeepsBalance: a group whose declarations are not balanced may be made up for by its neighbours; the condition is exact for each group.
- SotlasEmitter.CodegenC.EmitStmt: for, match, handover, quarantine, clinch, quench, gate, emit, unsafe blocks, rebound and `if let` are not modelled; a defer that holds a return or another defer makes the emitter recurse without end or leaves the order undefined, and is excluded. The emitted lines are taken to mean the statements they spell.
- SotlasEmitter.CodegenC.EmitFn: types, attributes and parameter lists are one header text.
- RenameInPlace.FunctionNode.SanitizeLocals: types, and the array sizes that they or repeated array literals may name, are not part of the syntax tree; methods of classes are not renamed by the source either.
- RenameMeaning.SanitizeKeepsMeaning: the meaning is the body with names resolved to declarations, in the scopes of the language; what C makes of the emitted scopes is not modelled.
- SafetyChecker.StrictSafetyChecker.Check: the mark for foreign pointers is left out, as it never decides acceptance; the type of a number is a parameter.
- ExternForms.StreamNormalizes: streams that are not well formed are covered by the methods, which give the fault, not by the theorems.
- ModuleGraph.Analyze: discovery of files, regular expressions, resolution of import paths, export tables and the sorting of reports; the graph is the input.
- PostCutoverAudit.Audit: finding calls and forbidden words in the text; they are the input.
- UefiHandoff.ExitBootServicesFinal: the contents of the memory map during the handoff, and the claim that the callback calls no firmware, which its type cannot show.
- UefiTranslate.PhysicalAddress: the buffer is a C object, at most 2^63 - 1 bytes, that holds memory_map_size bytes.
- Fat12Builder.CreateFatEfiImage: the boot sector is written in one step; bit operations on bytes are written as arithmetic.
- Fat16Builder.EspBuilder.AllocateDirectory: there is no check that the cluster is in the data area, in the source either; it is exactly if one was left, and any sequence that keeps within the table is covered. Directory contents, boot sector and partition table of this image are not modelled.
- InstalledDisk.CreateInstalledDisk: identifiers are parameters, as is the checksum function; fields of one structure are written in one step.
- LongNames.LongEntries: the name is given as UTF-16 units.
- The ISO 9660 and El Torito layers, the remaining fixtures, files, argument parsing, QEMU and all capture and run scripts: plumbing.
- Generated tables (fonts, logo, icons, colours) and structure layouts: nothing unbounded.
- tools/sotlas/sema.py: it swallows the failures of its import search, so it has no clean statement.
