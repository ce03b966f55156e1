# The Typst editor layer, modelled in Dafny

This project models the editor side of a small web-based Typst editor:

- The syntax-colouring tokenizer the editor registers for Typst. This is a
  Monarch grammar with the contexts `root` (markup), `string`, `math` and
  `comment`, plus an included `whitespace` rule set.
- The editor rules registered beside the tokenizer: the comment markers, the
  auto-closing pairs and the Enter rule.
- The marshalling of the compiler's completions and diagnostics into the plain
  structs handed to JavaScript, and the JavaScript copy of a diagnostic.
- The bookkeeping of the `WebWorld`: the source, the fonts, the clock, and
  what the last compilation left behind for `errors`, `warnings`,
  `render_svg` and `autocomplete`.

The tokenizer is modelled as data plus an interpreter:

- Every state of the grammar is a list of rules (`TypstLexer.Rules`). The
  `whitespace` include is spliced in place (`TypstLexer.Expanded`).
- Each regular expression is a hand-written matcher (`TypstLexer.Match`).
- One step tries the rules in order. The first rule that matches wins. An
  anchored `^` rule is only tried at column 0. When nothing matches, one
  character is emitted with the `defaultToken` class `invalid`
  (`TypstLexer.Step`).
- The host's behaviour is modelled too:
  - an `@push` at depth 100 throws (Monarch's `maxStack`); the named pushes
    `@string`, `@math` and `@comment` are not depth-checked;
  - a pop at depth 1 throws;
  - a group action whose groups do not cover the match throws;
  - a thrown line falls back to one unclassified token and keeps the entry
    stack (`TypstLexer.Lex`);
  - neighbouring tokens of the same class are merged (`TypstLexer.Collect`).

Module layout:

| file | contents |
|---|---|
| `wrappers.dfy` | `Option`, `Result` |
| `ints.dfy` | `u32`, `i64`, the `as u32` cast |
| `chars.dfy` | the character classes of the grammar, maximal runs |
| `lexer.dfy` | the grammar as data and the tokenizer |
| `lexer_steps.dfy` | how one step follows the rule table |
| `lexer_scan.dfy` | rules that provably do not fire |
| `lexer_contexts.dfy` | entering and leaving strings, math and comments |
| `lexer_math.dfy` | operators, names, escapes and the fallback in math |
| `lexer_markup.dfy` | `#` expressions, text and the fallback in markup |
| `lexer_strings.dfy` | string bodies and escapes |
| `lexer_comments.dfy` | nested block comments over a whole line |
| `lexer_stack.dfy` | a line lexed from `root` never pops the last state |
| `lexer_lists.dfy` | list markers |
| `lexer_collect.dfy` | merging of equal neighbours |
| `lexer_examples.dfy` | characteristic lines lexed end to end |
| `editor_config.dfy` | comment markers, auto-closing pairs, the Enter rule |
| `ide_structs.dfy` | completion marshalling |
| `web_structs.dfy` | diagnostic marshalling |
| `wasm_utils.dfy` | the JavaScript copy of a diagnostic |
| `web_world.dfy` | `WebWorld` |

Two consequences of the grammar are worth keeping in mind:

- The name rules need two or more characters, so a lone math letter, like
  `x` in `$x+1$`, is a `character`.
- `&` is not in `symbols`, so in math it falls back to `invalid`.

## Model

| member | source | states |
|---|---|---|
| `Ints.AsU32` | wasm/src/web_structs_ide.rs:44 | `as u32` keeps the value modulo 2^32: it is unchanged below 2^32 and strictly smaller above |
| `Chars.RunLength` | frontend/src/lib/monaco-typst-init.ts:69 | a `[...]+` class matches the maximal run: every character of the run is in the class and the next one is not |
| `Chars.LastLetterEnd` | frontend/src/lib/monaco-typst-init.ts:78 | the backtracking end of `[a-zA-Z0-9_-]*[a-zA-Z]`: the last letter of the range, with no letter after it; none when the range has no letter |
| `TypstLexer.Expanded` | frontend/src/lib/monaco-typst-init.ts:76 | after splicing `include`s every entry of a state's table is a plain rule |
| `TypstLexer.UnicodeEscape` | frontend/src/lib/monaco-typst-init.ts:67-68 | matches exactly when `u{` is followed by 1 to 5 hex digits and `}`, and then spans those digits and the delimiters (the maximal hex run) |
| `TypstLexer.MatchLiteral` | frontend/src/lib/monaco-typst-init.ts:74 | a literal regex matches exactly when the line continues with the literal, and consumes its length |
| `TypstLexer.Match` | frontend/src/lib/monaco-typst-init.ts:73-111 | every regex of the grammar consumes at least one character and never runs past the line |
| `TypstLexer.FirstMatch` | frontend/src/lib/monaco-typst-init.ts:73-111 | the chosen rule fires and no earlier rule fires; with none chosen, no rule fires |
| `TypstLexer.Perform` | frontend/src/lib/monaco-typst-init.ts:79 | an action's tokens are non-empty and spell the matched text; only a group action throws, on a group mismatch |
| `TypstLexer.StepFrom` | frontend/src/lib/monaco-typst-init.ts:64 | scanning the rules consumes 1 or more characters whose tokens spell the consumed text, or throws a group mismatch |
| `TypstLexer.Step` | frontend/src/lib/monaco-typst-init.ts:64-111 | one step of a state consumes at least one character and its tokens spell exactly the consumed text |
| `TypstLexer.Apply` | frontend/src/lib/monaco-typst-init.ts:74-104 | a move fails exactly for an `@push` at depth 100 or a `@pop` at depth 1; it never changes the bottom of the stack |
| `TypstLexer.ConcatAppend` | frontend/src/lib/monaco-typst-init.ts:64 | the text of a concatenation of token lists is the concatenation of their texts |
| `TypstLexer.LexFrom` | frontend/src/lib/monaco-typst-init.ts:72-111 | a successful tokenization spells the rest of the line with non-empty tokens and keeps the stack's bottom |
| `TypstLexer.Lex` | frontend/src/lib/monaco-typst-init.ts:61-113 | coverage from any entry stack: the token texts concatenate exactly to the line, even when the tokenizer throws |
| `TypstLexer.Absorb` | frontend/src/lib/monaco-typst-init.ts:61 | adding a token merges it into an equal-class last token or appends it; the text grows by the token's text and every new character takes the token's class |
| `TypstLexer.Collect` | frontend/src/lib/monaco-typst-init.ts:61 | merging keeps the text and the class of every character, never lengthens the list, and leaves no two neighbours of the same class |
| `TypstLexer.Tokenize` | frontend/src/lib/monaco-typst-init.ts:61-113 | the colouring of a line spells the line, with non-empty tokens and no two neighbours of one class; every character keeps the class the lexer gave it, and the end-of-line stack is the lexer's |
| `LexerSteps.StepFromPicks` | frontend/src/lib/monaco-typst-init.ts:73-111 | the first firing rule decides the step |
| `LexerSteps.StepFollowsFirstMatch` | frontend/src/lib/monaco-typst-init.ts:64-111 | a step performs the first firing rule's action, or falls back to one `invalid` character |
| `LexerSteps.FallbackIffNoRule` | frontend/src/lib/monaco-typst-init.ts:64 | a step falls back to `invalid` exactly when no rule of the state fires |
| `LexerSteps.TableFacts` | frontend/src/lib/monaco-typst-init.ts:73-111 | only the list-item rule has groups; no rule emits `invalid`; `root` never pops; only `comment` pushes itself |
| `LexerSteps.RootSplice` | frontend/src/lib/monaco-typst-init.ts:73-81 | `root` is its two delimiter rules, then the whitespace rules, then its own remaining rules |
| `LexerSteps.MathSplice` | frontend/src/lib/monaco-typst-init.ts:88-100 | `math` is its escape rule, then the whitespace rules, then its own remaining rules |
| `LexerSteps.ExpandedIsInline` | frontend/src/lib/monaco-typst-init.ts:76 | the literal expanded tables are the include expansion of the grammar |
| `LexerContexts.QuoteOpensString` | frontend/src/lib/monaco-typst-init.ts:74 | `"` in markup or in math is a `string.quote` that pushes `string` |
| `LexerContexts.QuoteClosesString` | frontend/src/lib/monaco-typst-init.ts:86 | `"` in a string is a `string.quote` that pops |
| `LexerContexts.DollarOpensMath` | frontend/src/lib/monaco-typst-init.ts:75 | `$` in markup is a `math.delimiter` that pushes `math` |
| `LexerContexts.DollarClosesMath` | frontend/src/lib/monaco-typst-init.ts:99 | `$` in math is a `math.delimiter` that pops |
| `LexerContexts.BlockCommentOpens` | frontend/src/lib/monaco-typst-init.ts:109 | the opening block-comment marker in markup or in math, through the whitespace include, is a comment that pushes `comment` |
| `LexerContexts.LineCommentStep` | frontend/src/lib/monaco-typst-init.ts:110 | `//` in markup or math is one comment token to the end of the line |
| `LexerContexts.LineCommentInRoot` | frontend/src/lib/monaco-typst-init.ts:76-110 | in markup `//` is a comment to the end of the line, reached through the whitespace include |
| `LexerContexts.LineCommentInMath` | frontend/src/lib/monaco-typst-init.ts:91-110 | in math `//` is a comment to the end of the line, reached through the whitespace include |
| `LexerContexts.LineCommentRunsToEnd` | frontend/src/lib/monaco-typst-init.ts:110 | a line comment ends the line's tokens and leaves the stack unchanged |
| `LexerMath.MathSymbolRun` | frontend/src/lib/monaco-typst-init.ts:69-70 | a maximal operator-character run is one token: `math.operator` exactly when the whole run is a catalogue entry, unclassified otherwise |
| `LexerMath.MathName` | frontend/src/lib/monaco-typst-init.ts:95-97 | a name in math is a `function` when its run ends in a letter before `(`, else a `variable` to its last letter, else a one-letter `character` |
| `LexerMath.MathFunctionName` | frontend/src/lib/monaco-typst-init.ts:95 | a letter run ending in a letter right before `(` is one `function` token |
| `LexerMath.MathVariableName` | frontend/src/lib/monaco-typst-init.ts:96 | otherwise a run with a later letter is a `variable` up to its last letter |
| `LexerMath.MathCharacterName` | frontend/src/lib/monaco-typst-init.ts:97 | a letter with no letter after it in its run is a one-letter `character` |
| `LexerMath.MathDigit` | frontend/src/lib/monaco-typst-init.ts:97 | a digit in math is a one-character `character` |
| `LexerMath.MathEscapeStep` | frontend/src/lib/monaco-typst-init.ts:68-90 | a backslash in math escapes the next character, or a whole `\u{...}`, as `math.escape` |
| `LexerMath.MathInvalidIffStray` | frontend/src/lib/monaco-typst-init.ts:64-100 | math falls back to `invalid` exactly on the characters no math rule starts with, such as `(`, `,` and `&` |
| `LexerMarkup.HashName` | frontend/src/lib/monaco-typst-init.ts:77-80 | `#name` is a `function` when the run ends in a letter before `(`, else a `variable` to the run's last letter, else `#` is text |
| `LexerMarkup.HashFunction` | frontend/src/lib/monaco-typst-init.ts:77 | `#` and a run ending in a letter right before `(` is one `function` token |
| `LexerMarkup.HashVariable` | frontend/src/lib/monaco-typst-init.ts:78 | otherwise `#` and the run up to its last letter is one `variable` token |
| `LexerMarkup.HashText` | frontend/src/lib/monaco-typst-init.ts:80 | `#` followed by no letter is a one-character `text` token |
| `LexerMarkup.RootInvalidIffSeparator` | frontend/src/lib/monaco-typst-init.ts:64-80 | past column 0 markup falls back to `invalid` exactly at U+2028 and U+2029 |
| `LexerStrings.StringBodyRun` | frontend/src/lib/monaco-typst-init.ts:83 | string text is the maximal run up to a backslash or a quote |
| `LexerStrings.StringEscapeStep` | frontend/src/lib/monaco-typst-init.ts:67-85 | the five simple escapes and `\u{` 1 to 5 hex digits `}` are valid escapes; any other escaped character is an invalid two-character escape; a final backslash falls back |
| `LexerStrings.StringValidEscape` | frontend/src/lib/monaco-typst-init.ts:67-84 | a backslash before `\`, `"`, `n`, `r` or `t`, or before a 1-to-5-digit `u{...}`, is one `string.escape` token |
| `LexerStrings.StringInvalidEscape` | frontend/src/lib/monaco-typst-init.ts:85 | a backslash before any other character is a two-character `string.escape.invalid` token |
| `LexerStrings.StringDanglingBackslash` | frontend/src/lib/monaco-typst-init.ts:64-86 | a backslash at the end of the line matches no string rule and falls back to `invalid` |
| `LexerComments.CommentStep` | frontend/src/lib/monaco-typst-init.ts:101-106 | inside a comment: a run of other text stays, the opening marker pushes, the closing marker pops, a lone `/` or `*` stays |
| `LexerComments.CommentNesting` | frontend/src/lib/monaco-typst-init.ts:101-106 | a comment line lexes to comment tokens only and ends at depth 1 + opens − closes, carried to the next line |
| `LexerComments.NestingOverflowThrows` | frontend/src/lib/monaco-typst-init.ts:103 | an opening marker at comment depth 100 throws a stack overflow |
| `LexerStack.StepMoves` | frontend/src/lib/monaco-typst-init.ts:73-111 | only `comment` pushes itself; markup never pops |
| `LexerStack.NoPopAtRoot` | frontend/src/lib/monaco-typst-init.ts:73-111 | a step from a stack rooted in `root` never makes a pop fail |
| `LexerStack.RootedNeverUnderflows` | frontend/src/lib/monaco-typst-init.ts:73-111 | from a stack rooted in `root` no line pops the last state |
| `LexerLists.ListMarkerOnlyFirst` | frontend/src/lib/monaco-typst-init.ts:79 | `list-marker` can only be the first token of a line |
| `LexerLists.NoMarkerPastStart` | frontend/src/lib/monaco-typst-init.ts:79 | past column 0 no step, in any state, emits a `list-marker` |
| `LexerLists.ListItemLine` | frontend/src/lib/monaco-typst-init.ts:79 | a line starting with `-` or `+` in markup is a `list-marker` and the rest of the line as `text` |
| `LexerLists.OddSpaceListItemFallsBack` | frontend/src/lib/monaco-typst-init.ts:79-108 | leading space the whitespace rule misses, before a list item, makes the group action throw and the line falls back to one unclassified token |
| `LexerCollect.CollectKeepsAlternating` | frontend/src/lib/monaco-typst-init.ts:61 | merging leaves a list with no equal neighbours unchanged |
| `LexerCollect.CollectIdempotent` | frontend/src/lib/monaco-typst-init.ts:61 | merging twice is merging once |
| `LexerCollect.CollectFixedIffAlternating` | frontend/src/lib/monaco-typst-init.ts:61 | merging changes nothing exactly when no two neighbours share a class |
| `LexerCollect.TokenizeAlternating` | frontend/src/lib/monaco-typst-init.ts:61 | when the lexer's tokens already alternate in class, the editor receives them as they are |
| `LexerCollect.ColouringDeterminesTokens` | frontend/src/lib/monaco-typst-init.ts:61 | two alternating lists of non-empty tokens with the same text and the same class for every character are equal |
| `LexerCollect.CollectIsTheColouring` | frontend/src/lib/monaco-typst-init.ts:61 | the merged list is the only alternating list of non-empty tokens that keeps the text and every character's class |
| `LexerExamples.EquationLine` | frontend/src/lib/monaco-typst-init.ts:75-99 | `$x+1$` is delimiter, character, operator, character, delimiter and ends in markup |
| `LexerExamples.OpenEquationLine` | frontend/src/lib/monaco-typst-init.ts:75-97 | `$x+1` without its closing `$` leaves `math` open for the next line |
| `LexerExamples.QuotedEquationLine` | frontend/src/lib/monaco-typst-init.ts:86-99 | `$"a"$` enters a string from math, returns to math, and ends in markup |
| `LexerExamples.EscapedDollarLine` | frontend/src/lib/monaco-typst-init.ts:90-99 | in `$\$$` the escaped dollar does not close the equation |
| `LexerExamples.GreaterEqualIsOperator` | frontend/src/lib/monaco-typst-init.ts:70-93 | `>=` in math is one operator |
| `LexerExamples.PlusEqualIsUnclassified` | frontend/src/lib/monaco-typst-init.ts:70-93 | `+=` in math is one unclassified run |
| `LexerExamples.NestedCommentLine` | frontend/src/lib/monaco-typst-init.ts:103-109 | a nested comment closed once leaves the outer comment open, with all tokens `comment` |
| `LexerExamples.LongUnicodeEscape` | frontend/src/lib/monaco-typst-init.ts:67-85 | `\u{123456}` in a string is the invalid escape `\u` |
| `LexerExamples.FiveDigitUnicodeEscape` | frontend/src/lib/monaco-typst-init.ts:67-84 | `\u{1F600}` in a string is one escape of nine characters |
| `EditorConfig.ToggledLineIsComment` | frontend/src/lib/monaco-typst-init.ts:41-110 | a line prefixed with the configured line-comment marker is one comment token in markup or math and keeps the stack |
| `EditorConfig.FindPair` | frontend/src/lib/monaco-typst-init.ts:45-51 | the pair found opens with the typed character; none means no pair does |
| `EditorConfig.AutoClose` | frontend/src/lib/monaco-typst-init.ts:45-51 | any character inserted comes from a pair opened by the typed character |
| `EditorConfig.AutoCloseCases` | frontend/src/lib/monaco-typst-init.ts:45-51 | `$` and the brackets always close with their partner; `"` closes exactly outside the string scope; nothing else closes |
| `EditorConfig.DollarAlwaysCloses` | frontend/src/lib/monaco-typst-init.ts:46 | `$` closes in every scope, math included |
| `EditorConfig.QuoteNotInString` | frontend/src/lib/monaco-typst-init.ts:47 | `"` closes outside strings only |
| `EditorConfig.StringTokensAreStringScope` | frontend/src/lib/monaco-typst-init.ts:47-83 | the tokenizer's string body lies in the scope `notIn: ['string']` refers to |
| `EditorConfig.FindsDollarIff` | frontend/src/lib/monaco-typst-init.ts:54-55 | the unanchored search for `$` succeeds exactly when the text contains a `$` |
| `EditorConfig.OnEnter` | frontend/src/lib/monaco-typst-init.ts:52-58 | Enter indents and outdents exactly when the text before and the text after the cursor both contain `$` |
| `EditorConfig.EnterBetweenDollars` | frontend/src/lib/monaco-typst-init.ts:52-58 | on one line, that is exactly a cursor with a `$` before it and a `$` at or after it |
| `IdeStructs.KindOf` | wasm/src/web_structs_ide.rs:15-26 | each engine kind maps to the same-named type; `data` is present exactly for `Symbol` and holds its character |
| `IdeStructs.TypeNameInjective` | wasm/src/web_structs_ide.rs:63-74 | the ten type strings are distinct |
| `IdeStructs.KindRoundTrip` | wasm/src/web_structs_ide.rs:15-26 | the kind mapping can be read back |
| `IdeStructs.KindBackRoundTrip` | wasm/src/web_structs_ide.rs:15-26 | every readable kind pair is the image of the kind it reads back as |
| `IdeStructs.KindOfInjective` | wasm/src/web_structs_ide.rs:15-26 | no two engine kinds share a JavaScript kind |
| `IdeStructs.FromTypstCompletion` | wasm/src/web_structs_ide.rs:13-31 | the label is copied; `apply` and `detail` keep presence; the kind goes through the mapping |
| `IdeStructs.CompletionRoundTrip` | wasm/src/web_structs_ide.rs:27-29 | a converted completion reads back to the engine's completion, contents included |
| `IdeStructs.MapCompletions` | wasm/src/lib.rs:93 | completions are converted one by one, with length and order kept |
| `IdeStructs.MapCompletionsRoundTrip` | wasm/src/lib.rs:93 | the converted list reads back to the engine's list |
| `IdeStructs.AutocompleteFrom` | wasm/src/web_structs_ide.rs:42-47 | the completions pass through unchanged; the position is the offset modulo 2^32 |
| `WebStructs.FromRange` | wasm/src/web_structs.rs:19-24 | both bounds are the range's bounds modulo 2^32, and equal to them below 2^32 |
| `WebStructs.FromRangeKeepsOrder` | wasm/src/web_structs.rs:19-24 | a 32-bit range keeps `start <= end` and its length |
| `WebStructs.FromRangeWraps` | wasm/src/web_structs.rs:21-22 | bounds past 2^32 wrap around |
| `WebStructs.NewWithRange` | wasm/src/web_structs.rs:35-40 | the tracepoint is kept verbatim and the span is the range cast with `as u32`, so bounds below 2^32 are kept |
| `WebStructs.SeverityName` | wasm/src/web_structs.rs:56 | the string is `"Warning"` exactly for warnings and `"Error"` otherwise |
| `WebStructs.SeverityRoundTrip` | wasm/src/web_structs.rs:56 | the severity string reads back to the severity |
| `WebStructs.ConvertTrace` | wasm/src/web_structs.rs:60 | trace entry i comes from input entry i, with its range resolved |
| `WebStructs.ConvertTraceAppend` | wasm/src/web_structs.rs:60 | converting a trace piecewise gives the same entries |
| `WebStructs.FromSourceDiagnostic` | wasm/src/web_structs.rs:54-63 | defined when the world resolves every span; severity readable back; span from the range; message and hints verbatim; trace in order |
| `WebStructs.ConvertAll` | wasm/src/lib.rs:76-77 | diagnostic lists are converted one by one, in order |
| `WebStructs.ConversionKeepsRanges` | wasm/src/web_structs.rs:57-60 | with 32-bit ranges every byte offset survives the conversion |
| `WasmUtils.ToObject` | frontend/src/lib/wasmUtils.ts:3-11 | severity and message copied; a span object with the same bounds; trace and hints passed through |
| `WasmUtils.ToObjectRoundTrip` | frontend/src/lib/wasmUtils.ts:3-11 | the copy loses nothing |
| `WasmUtils.FromObjectRoundTrip` | frontend/src/lib/wasmUtils.ts:4-10 | every object of the five-field shape is the copy of one diagnostic |
| `WasmUtils.ToObjectInjective` | frontend/src/lib/wasmUtils.ts:3-11 | distinct diagnostics have distinct copies |
| `WasmUtils.ToObjects` | frontend/src/lib/wasmUtils.ts:3-11 | copying a list copies each diagnostic in order |
| `WasmUtils.ToObjectsRoundTrip` | frontend/src/lib/wasmUtils.ts:3-11 | a copied list reads back to the list |
| `WasmUtils.CompilerDiagnosticObject` | frontend/src/lib/wasmUtils.ts:5-7 | a compiler diagnostic reaches JavaScript with a readable severity, its message and hints, and its 32-bit span |
| `WebWorld.New` | wasm/src/lib.rs:35-48 | a new world's font book matches its (no) fonts and its main file is `/main.typ` |
| `WebWorld.AddFont` | wasm/src/lib.rs:52-59 | one font is appended, its metadata goes to the book, and source, main file, clock, output and warnings are unchanged |
| `WebWorld.Errors` | wasm/src/lib.rs:62-65 | the error list of a failed compilation, otherwise empty |
| `WebWorld.Warnings` | wasm/src/lib.rs:68-70 | exactly the warnings the last compilation stored |
| `WebWorld.Compile` | wasm/src/lib.rs:73-78 | stamps the clock; stores an output that succeeded exactly when the compiler's did; replaces the warnings with the converted ones; keeps source and fonts |
| `WebWorld.RenderSvg` | wasm/src/lib.rs:83-89 | an SVG exactly after a successful compilation, of its first page |
| `WebWorld.Autocomplete` | wasm/src/lib.rs:91-94 | nothing before the first compilation; afterwards a result exactly when the autocompleter, given the world, the document if any, the main source and the cursor, answers, and then its answer converted in order with the position cast to `u32` |
| `WebWorld.SourceOf` | wasm/src/lib.rs:110-112 | every file id resolves to the stored source |
| `WebWorld.FileOf` | wasm/src/lib.rs:114-116 | every file's content is the main source's text |
| `WebWorld.FontAt` | wasm/src/lib.rs:118-120 | the index-th added font, none past the count |
| `WebWorld.OffsetSeconds` | wasm/src/lib.rs:128 | an offset is usable exactly when the hours and the seconds both fit in `i32` |
| `WebWorld.EastOpt` | wasm/src/lib.rs:129 | chrono accepts a fixed offset exactly when it is strictly less than one day either way |
| `WebWorld.Today` | wasm/src/lib.rs:122-138 | nothing before a compilation or for an offset either guard rejects; otherwise the local or fixed-offset date of the compilation's clock |
| `WebWorld.NewIsBlank` | wasm/src/lib.rs:35-48 | a new world has no errors, warnings, SVG, completions, fonts or date, and an empty source |
| `WebWorld.ErrorsAfterCompile` | wasm/src/lib.rs:62-76 | after a compilation the errors are the converted errors exactly when it failed |
| `WebWorld.WarningsAfterCompile` | wasm/src/lib.rs:68-77 | after a compilation the warnings are that compilation's converted warnings, whether it succeeded or failed |
| `WebWorld.CompileReplaces` | wasm/src/lib.rs:76-77 | compiling twice equals compiling once with the second clock: nothing accumulates |
| `WebWorld.RenderAfterCompile` | wasm/src/lib.rs:84-88 | after a compilation the SVG is there exactly when it succeeded |
| `WebWorld.AutocompleteAfterFailure` | wasm/src/lib.rs:93 | after a failed compilation the autocompleter is still asked, with the compiled world and no document, and its answer decides the result |
| `WebWorld.AutocompleteAfterSuccess` | wasm/src/lib.rs:93 | after a successful compilation the autocompleter is asked with the compiled world and document, and its answer decides the result |
| `WebWorld.AutocompleteSeesFonts` | wasm/src/lib.rs:57-93 | fonts added with `add_font` reach the autocompleter: with one that reads the fonts, adding a font turns no answer into a font completion |
| `WebWorld.FontAfterAdd` | wasm/src/lib.rs:57-120 | after `add_font` the new font sits at the old count and the old fonts keep their indices |
| `WebWorld.FontsInOrder` | wasm/src/lib.rs:57-120 | fonts added one after another are numbered in order |
| `WebWorld.AddFonts` | wasm/src/lib.rs:52-59 | adding fonts one by one keeps the font book in step with the fonts |
| `WebWorld.TodayAfterCompile` | wasm/src/lib.rs:74-126 | after a compilation `today(None)` is the local date at its clock |
| `WebWorld.TodayHours` | wasm/src/lib.rs:125-131 | with a clock set, an explicit offset yields a date exactly for the hours -23 to 23 |
| `WebWorld.OffsetBounds` | wasm/src/lib.rs:128 | 596523 hours either way is the largest offset the `i32` guard (`try_from` and `checked_mul(3600)`) lets through |

## Left out

- The colour theme, the language registration and the `brackets` list
  (frontend/src/lib/monaco-typst-init.ts:3-40). They configure the host's UI
  and bracket matching, not the tokenizer.
- The `bracket: '@open'/'@close'` metadata on rules. It only feeds the
  editor's bracket matching.
- `maxTokenizationLineLength`. The host's own limit does not come from this
  code.
- `\p{L}` and other Unicode letter classes. The grammar's letter classes are
  ASCII, and the model keeps them ASCII.
- `EditorConfig.AutoClose` takes the class of the token under the cursor as a
  parameter. How the host picks that token is host behaviour and is not
  modelled. Neither is the host's `autoCloseBefore` condition on the next
  character, nor its refusal to auto-close a quote typed right after a word
  character. The function gives the closer the language configuration
  offers.
- `EditorConfig.OnEnter` decides only whether the rule applies. The host's
  text edit for indent-outdent is not modelled.
- Font parsing (`Font::new`) and the font book's internals. They are foreign
  code: parsing is a function parameter, and the book is a list of metadata.
- `WebWorld.AddFont` requires data that the parser accepts as a font.
  `Font::new(..).unwrap()` (wasm/src/lib.rs:53-55) panics on anything else,
  woff2 data included, and that panic is not modelled.
- `WebWorld.Compile` requires every diagnostic and trace span to resolve in
  `ranges` (`Resolvable`). This stands for the `world.range(..).unwrap()` calls
  (wasm/src/web_structs.rs:57, 60), which panic on a span without a range; the
  panic is not modelled.
- `WebWorld.Compile` takes the Typst compiler as a function parameter, and
  `world.range` as a map. Compilation itself is not modelled.
- `WebWorld.Autocomplete` takes Typst's autocompleter as a function parameter
  that receives the world's view (main file, source, fonts, book, clock).
- `WebWorld.RenderSvg` takes the SVG renderer as a function parameter. It
  requires a document with at least one page, because `pages[0]` panics on an
  empty one.
- `WebWorld.Today` takes chrono's calendar conversion and `Datetime::from_ymd`
  as parameters. The integer guards and `east_opt`'s one-day bound are modelled.
- `WebWorld.FileOf` returns the source text, not its UTF-8 bytes. Byte
  encoding is not modelled.
- `Utc::now()` is the `clock` parameter of `WebWorld.Compile`.
- `CompilationOutput` (wasm/src/web_structs.rs:3-8) is declared but never
  built by the code.
- The `Display` rendering of a tracepoint (`e.v.to_string()`). It is taken as
  already-rendered text.
- frontend/src/lib/typst-assets.ts is not part of this model. It is network
  fetching.
- The `wasm_bindgen` glue, the panic hook and console logging
  (wasm/src/lib.rs:10-14, 147-151).
- JavaScript object identity ("a fresh span object"). Values have no identity
  in the model, so `WasmUtils.ToObject` states equality of contents only.
