# ApocScript front end in Dafny

ApocScript is a small statically typed scripting language whose C
implementation reads one statement at a time and passes it through four
stages. This project models those four stages as pure Dafny functions and
proves properties of them.

- **Lexer** (`Lexer.c`). It cuts a line into tokens up to a `;` or a
  newline and appends an end-of-file token. Numerals lose their `_`
  separators. String literals decode their escapes in place, shifting the
  rest of the line left. One- and two-character operators come from a
  keyword table.
- **Parser** (`Parser.c`). It builds the syntax tree of a statement by
  precedence climbing. Postfix calls and `:` declarations attach to an
  operand.
- **Analyzer** (`Analyzer.c`). It walks the tree with a stack of scopes
  and a registry of named types, and gives every expression a type. It
  rejects:
  - redeclarations and undefined names;
  - calls of things that are not functions, and wrong argument counts;
  - non-boolean conditions and non-arithmetic operands;
  - types that do not match.
- **Bytecode generator** (`Bytecode.c`). It chooses type-specialised
  opcodes as a family's first opcode plus an offset. Operands go into an
  append-only byte buffer, big-endian. Every declaration gets the next
  variable slot.

Every way the C program abandons a statement becomes a `Failure` carrying
an `Error` (`Common.dfy`). This covers `report_error` (print and exit), a
failing C `assert`, a NULL dereference, and a lexer loop that can never end.
The model does not stop the process.

The model follows the code as written, including behaviour that looks
unintended, with one exception: the bytes past a line's end, listed under
"## Left out" (Lexer.Escape). The lemmas state such behaviour as it is.
Examples:

- a call consumes its `)` and then one more token;
- a block leaves its `}` for the caller;
- every type comparison fails, because `types_match` is a stub that
  answers no;
- every integer literal the parser produces is unsigned, and the analyzer
  asserts on unsigned literals.

Files:

| file | contents |
|---|---|
| `Common.dfy` | `Option`, `Result`, `Error`, and the 64-bit range |
| `Lexer.dfy`, `LexerFacts.dfy` | the lexer; a reference decoding of string literals and the lexer's properties |
| `Types.dfy` | type descriptors |
| `Parser.dfy`, `ParserFacts.dfy` | the parser, literal conversion, and parsing properties |
| `Analyzer.dfy`, `AnalyzerFacts.dfy` | the type registry, scopes, the analysis walk, and its properties |
| `Bytecode.dfy`, `BytecodeFacts.dfy` | big-endian operands, opcode selection, slots, generation, and its properties |

## Model

| member | source | states |
|---|---|---|
| Lexer.StartOfLine | Main.c:38-40 | A freshly read line is a valid cursor: the position is within the line's end and no NUL lies ahead. |
| Lexer.Advance | Lexer.c:14-21 | Advancing succeeds exactly when the next position is still before the line's end; otherwise the statement is abandoned. |
| Lexer.CharToEscaped | Lexer.c:36-54 | The escape letters a b f n r t v \ ' " ? 0 translate to their control characters; any other character maps to the marker 1. |
| Lexer.SkipSpace | Lexer.c:65-67 | Whitespace is skipped: every skipped character is a space and the cursor stops on a non-space. |
| Lexer.NumberEnd | Lexer.c:72-87 | A numeral runs over digits, `.` and `_` and stops on the first other character. |
| Lexer.RemoveUnderscores | Lexer.c:88-98 | The copied numeral has no `_` and is no longer than the lexeme. |
| Lexer.RemoveUnderscoresAppend | Lexer.c:88-98 | Dropping separators distributes over concatenation, so the digits keep their order. |
| Lexer.CopyNumeral | Lexer.c:88-100 | The copy loop produces the lexeme without separators, and the token size is its length. |
| Lexer.LexNumber | Lexer.c:69-102 | A number token's text is the maximal run of number characters with separators removed. |
| Lexer.Escape | Lexer.c:114-123 | Decoding an escape shifts the rest of the line left by one, puts the translated character at the cursor, and keeps the prefix. |
| Lexer.StringBody | Lexer.c:107-127 | The decoding loop stops on the closing quote and leaves the part of the line before the literal untouched. |
| Lexer.LexString | Lexer.c:104-137 | A string token has kind const-str and a size equal to its text's length. |
| Lexer.LexCharLiteral | Lexer.c:138-157 | A character literal is the character after the quote. Three positions are consumed whatever the third character is, and the literal fails only at the end of the line. |
| Lexer.LexPunct | Lexer.c:158-178 | Two punctuation characters that form a table key give that operator and consume two positions; otherwise the single character is the token. |
| Lexer.WordEnd | Lexer.c:180-181 | A word runs over letters, digits and `_`. |
| Lexer.LexWord | Lexer.c:180-197 | A word in the keyword table gives that keyword; any other word is an identifier with its text and length. |
| Lexer.LexToken | Lexer.c:56-199 | A token either advances the cursor or leaves it in place. It can stay in place only for a newline or an empty word, which is what a character no rule consumes yields. A token's size is its text's length, or 0 when it has no text. |
| Lexer.LexSignificant | Lexer.c:68-198 | After whitespace, the dispatch on the first character never yields a newline or end-of-file token. The cursor advances, unless the token is an empty word. The size is the text's length. |
| Lexer.LexStatement | Lexer.c:23-34 | A statement's tokens end with exactly one terminator (`;` or newline) followed by the end-of-file token. |
| LexerFacts.ScanQuoted | Lexer.c:104-137 | The reference decoding of a literal on the unmodified line ends on a quote character. |
| LexerFacts.StringBodyRefines | Lexer.c:107-127 | The in-place decoding loop succeeds exactly when the reference reading does, and yields the same text. |
| LexerFacts.EscapeStepRefines | Lexer.c:114-124 | One escape step keeps the in-place loop in step with the reference reading. |
| LexerFacts.PlainStepRefines | Lexer.c:125-126 | One plain character keeps the in-place loop in step with the reference reading. |
| LexerFacts.EscapeAgreement | Lexer.c:116-117 | After an escape, the shifted line still reads as the original line, one position further on. |
| LexerFacts.LexStringDecodes | Lexer.c:104-137 | A string token's text is exactly the reference decoding of the literal, and lexing it succeeds exactly when the literal closes before the line's end. |
| LexerFacts.ThreeCharKeys | Lexer.c:232-233 | Only `<<=` and `>>=` map to the shift-assignment kinds. |
| LexerFacts.NoThreeCharOperators | Lexer.c:158-197 | The lexer never produces `<<=` or `>>=`, although the table lists them. |
| LexerFacts.NewlineIsNotConsumed | Lexer.c:58-64 | A line feed, possibly after one carriage return, gives a newline token and the cursor stays on it. |
| LexerFacts.NewlineAfterSpaceIsSkipped | Lexer.c:60-67 | A line feed after other whitespace is skipped as whitespace, so no newline token is produced. |
| LexerFacts.SecondDotAccepted | Lexer.c:74-87 | `1.2.3` lexes as a single number token, because the second decimal point is not rejected. |
| LexerFacts.SeparatorsDropped | Lexer.c:88-100 | `1_000` lexes as the number `1000` of size 4. |
| Parser.AdvanceToken | Parser.c:6-13 | Advancing fails exactly on the end-of-file token; otherwise it moves one token on. |
| Parser.GetToken | Parser.c:16-21 | Getting a token returns the current token and moves past it, unless it is end-of-file. |
| Parser.EatToken | Parser.c:28-36 | Eating succeeds exactly when the current token has the expected kind; otherwise the error names the expected and the actual kind. |
| Parser.LeadingDigits | Parser.c:301-330 | The digit prefix that `strtoull` reads is maximal. |
| Parser.NegativeNumeral | Parser.c:301-330 | A negative numeral is stored as the two's complement of its magnitude, clamped at -2^63. |
| Parser.SignExtendByte | Parser.c:297-300 | A character literal's byte sign-extends as a C `char`, and its low byte is kept. |
| Parser.CharLiteral | Parser.c:297-300 | A character token gives a char literal whose low byte is the character's byte. |
| Parser.NumberLiteral | Parser.c:301-330 | A numeral whose scanned part has a `.` is a double, keeping the numeral. Otherwise, one starting with `-` is a signed integer holding the two's-complement bits of its clamped negative value, and any other is unsigned with the saturated `strtoull` value. |
| Parser.ParseFuncArg | Parser.c:118-128 | A parameter is `name` (the name is also the type) or `name : type`, and consumes 1 or 3 tokens. |
| Parser.ArgumentList | Parser.c:134-145 | Every parsed parameter is a parameter node. An immediate `)` gives no parameters and is not consumed. |
| Parser.ParseArguments | Parser.c:130-146 | A parameter list starts with `(` and yields only parameter nodes. |
| Parser.ParseFunc | Parser.c:148-162 | A function literal consumes `fn` and a name. Its parameters are exactly what the argument list parses to. It has a return type exactly when `->` follows the list, and then ends where that type expression ends, else where the list ends. |
| Parser.ParseAtom | Parser.c:226-281 | Postfix calls and declarations attach until neither `(` nor `:` follows. A `:` after anything but an identifier aborts. |
| Parser.DeclType | Parser.c:254-273 | After `:`, a declaration has either `=` directly (no type) or a type and then `=`. |
| Parser.CallArgs | Parser.c:234-253 | The argument loop ends on `)`; an immediate `)` gives no arguments. |
| Parser.CloseArgument | Parser.c:240-252 | After an argument, a `,` continues the loop and a `)` is consumed; any other token aborts. |
| Parser.BlockItems | Parser.c:343-355 | A block's expressions run until `}`, which is not consumed. |
| Parser.ParseOperand | Parser.c:283-364 | No operand exactly when no token is consumed. A token that cannot start one gives none, and `[` asserts. An identifier, string, char or number token is one node of its kind, the literal classified as the literal functions say; a textless char or number token is a NULL dereference. `(` gives the inner expression and needs `)` after it, and `fn` gives the function literal. |
| Parser.ParseUnary | Parser.c:366-385 | An `if` parses a condition, then a body starting where the condition ends, and gives an if node of the two at the `if` token, ending after the body. Otherwise an operand is parsed: its error propagates, a missing operand aborts (a null dereference on `:`, else expected operand), and a present one continues into the postfix chain. |
| Parser.ParseBinary | Parser.c:387-409 | After an expression, the next token binds more loosely than the minimum power. |
| Parser.BinaryLoop | Parser.c:387-409 | The loop stops, without consuming, on the first token that binds more loosely than the minimum. |
| Parser.ParseExpression | Parser.c:411-414 | An expression ends before a token that is not a binary operator. |
| Parser.StatementItems | Parser.c:110-114 | The expressions of a statement run until `;` or a newline. |
| Parser.ParseTokens | Parser.c:103-116 | A root node on the first token holds exactly the statement's expressions, and parsing succeeds exactly when they parse. |
| ParserFacts.BindingPowers | Parser.c:164-224 | Eleven operator levels bind at 15+2k on the left and 16+2k on the right; assignments bind at 10/11; everything else at 0. |
| ParserFacts.NameOperand | Parser.c:366-409 | An identifier followed by a weaker, non-postfix token parses to just that identifier. |
| ParserFacts.ThreeOperands | Parser.c:387-414 | `a op1 b op2 c` groups right when op2 binds more tightly and left otherwise, so equal levels associate to the left. |
| ParserFacts.DeclarationForms | Parser.c:254-273 | `x : = y` and `x : T = y` parse to declarations without and with a type. |
| ParserFacts.DeclarationNeedsName | Parser.c:254-262 | A `:` after a string literal aborts the declaration. |
| ParserFacts.LeadingColonCrashes | Parser.c:366-385 | An expression starting with `:` dereferences the missing operand. |
| ParserFacts.RemoveUnderscoresFrom | Lexer.c:88-98 | Every character of a copied numeral comes from the lexeme, and a leading digit stays first. |
| ParserFacts.AllDigitsLead | Parser.c:301-330 | A string of digits is read entirely by `strtoull`. |
| ParserFacts.DecimalValueBound | Parser.c:301-330 | n digits have a value below 10^n. |
| ParserFacts.ShortNumeralsExact | Parser.c:301-330 | A numeral of at most 19 digits converts exactly, without saturation. |
| ParserFacts.LexedNumbersAreUnsigned | Parser.c:301-330 | A number token from the lexer is a double exactly when it has a `.`; otherwise it is an unsigned literal of all its digits. |
| ParserFacts.LexedNumberOperand | Parser.c:297-330 | A number token from the lexer is parsed as one literal operand, a double exactly when its numeral has a `.`, else the unsigned value of its digits. |
| ParserFacts.BlockLeavesBrace | Parser.c:343-355 | `{ a }` yields the block and leaves the cursor on the `}`. |
| ParserFacts.EmptyCallLeavesParen | Parser.c:234-253 | `f()` yields a call with no arguments and leaves the `)` unconsumed. |
| ParserFacts.CallSwallowsNextToken | Parser.c:234-253 | `f(a);` fails to parse: the call consumes the `;` after the `)`. |
| ParserFacts.EmptyParametersLeaveParen | Parser.c:130-146 | An empty parameter list `()` consumes only its `(`. |
| Analyzer.InitAnalyzer | Analyzer.c:110-121 | The registry holds exactly the eight built-in types: i8, i16, i32, i64, f32, f64, b32 and string, with their kinds and sizes. |
| Analyzer.GetType | Analyzer.c:91-94 | A name is found exactly when it is registered; otherwise the result is NULL. |
| Analyzer.FindInScope | Analyzer.c:19-30 | A symbol is found in a scope exactly when one of that name is declared there. |
| Analyzer.Lookup | Analyzer.c:15-32 | A name resolves exactly when some open scope declares it. The symbol found is one of that scope's, carries the name, and comes from the outermost scope that declares it. |
| Analyzer.GetSymbol | Analyzer.c:15-32 | Looking up asserts that a scope is open. It finds a symbol exactly when some scope declares the name, and that symbol belongs to the outermost declaring scope. |
| Analyzer.PushScope | Analyzer.c:48-53 | Opening a scope appends an empty scope and changes no visible name. |
| Analyzer.PopScope | Analyzer.c:55-65 | Closing removes the innermost scope and its names; with no scope open it aborts. |
| Analyzer.AddSymbol | Analyzer.c:34-46 | A name visible in any open scope is a redeclaration. Otherwise it is appended to the innermost scope and names stay unique. |
| Analyzer.Declare | Analyzer.c:44-45 | A new symbol goes at the end of the innermost scope, the other scopes stay as they were, the visible names gain exactly that name, and unique names stay unique. |
| Analyzer.NamesAppendScope | Analyzer.c:19-30 | The names of a stack with a scope on top are the stack's names followed by that scope's. |
| Analyzer.SameFramesTransitive | Analyzer.c:34-65 | Declarations in the innermost scope compose. |
| Analyzer.SameFramesKeepNames | Analyzer.c:34-46 | Declaring only in the innermost scope never hides a visible name. |
| Analyzer.FindAppended | Analyzer.c:19-30 | A symbol appended to a scope that lacks its name is found by that name. |
| Analyzer.LookupDeclared | Analyzer.c:15-46 | Round trip: after a fresh name is declared, looking it up gives the new symbol. |
| Analyzer.BindTarget | Analyzer.c:211-227 | Binding a declaration's target after analysing its parts fails on a name visible before, and otherwise the name then looks up to the new symbol. |
| Analyzer.TypesMustMatch | Analyzer.c:96-108 | Succeeds exactly when the matcher accepts. A mismatch involving NULL dereferences it, since the message prints both names. |
| Analyzer.TypeIsBoolean | Analyzer.c:174-180 | Only a boolean type passes; NULL is dereferenced. |
| Analyzer.TypeIsArithmetic | Analyzer.c:182-188 | Only integer, float and boolean types pass; NULL is dereferenced. |
| Analyzer.LiteralType | Analyzer.c:190-204 | A char is i8, a double f64, a signed integer i64; an unsigned literal asserts. |
| Analyzer.Erase | Analyzer.c:206-306 | Clearing annotations keeps each node's token. |
| Analyzer.AnalyzeExpression | Analyzer.c:206-306 | Every node that returns records its type. Analysis only annotates the tree, only declares in the innermost scope, and keeps names unique. A block restores the stack. Blocks, ifs and calls are untyped. Function literals, parameters, roots and error nodes abort as unexpected. |
| Analyzer.AnalyzeId | Analyzer.c:271-279 | An identifier has its symbol's type, and an undefined one aborts with its name. |
| Analyzer.AnalyzeDecl | Analyzer.c:211-227 | A declaration needs a named target and rejects a name already visible. It declares the target in the innermost scope, with the annotation's type when there is one, else the initializer's. Afterwards the name looks up to exactly that symbol. |
| Analyzer.AnalyzeCall | Analyzer.c:228-249 | A call is untyped and only annotates the tree. With an analysed callee, an untyped one is a NULL dereference, a non-function aborts, and a wrong argument count is reported before any argument is analysed. |
| Analyzer.CallArguments | Analyzer.c:244-248 | Every argument's type is accepted by the matcher against its parameter's type. |
| Analyzer.AnalyzeBody | Analyzer.c:250-262 | A block leaves exactly the stack it found. |
| Analyzer.AnalyzeAll | Analyzer.c:132-135 | Each expression's recorded type is the type of its node. |
| Analyzer.AnalyzeBinary | Analyzer.c:280-288 | A binary expression has its left operand's type. That type is arithmetic, and the matcher accepted the two sides. |
| Analyzer.AnalyzeIf | Analyzer.c:289-294 | An `if` is analysed only with a boolean condition. |
| Analyzer.AnalyzeType | Analyzer.c:145-172 | A name denotes its registered type, and a function literal denotes a function type. Anything else is not a type. |
| Analyzer.AnalyzeAst | Analyzer.c:127-137 | A statement succeeds exactly when its expressions do in one fresh scope, and it leaves no scope open. |
| AnalyzerFacts.PushThenPop | Analyzer.c:48-65 | Closing the scope just opened restores the stack. |
| AnalyzerFacts.PopForgets | Analyzer.c:55-65 | After a scope is closed, its names no longer resolve and the remaining names stay unique. |
| AnalyzerFacts.SourceNeverMatches | Analyzer.c:96-100 | The source's matcher accepts no pair of types. |
| AnalyzerFacts.NothingMatches | Analyzer.c:214-248 | Under that matcher, annotated declarations, binary expressions and calls with arguments always fail. |
| AnalyzerFacts.CharSumTypes | Analyzer.c:280-288 | With an equality matcher `'a' + 'b'` is an i8; under the source's matcher it is a type mismatch. |
| AnalyzerFacts.LeafTypes | Analyzer.c:263-270 | Leaves take the built-in types. Unsigned integer literals, which are every integer the parser produces, assert. |
| AnalyzerFacts.IdentifierTypes | Analyzer.c:271-279 | An identifier has the type of the symbol of that name in the outermost scope that declares it, leaves the scopes alone, and aborts as undefined exactly when no open scope declares it. |
| AnalyzerFacts.DeclaredNameResolves | Analyzer.c:211-279 | After a declaration succeeds, an identifier of the same name analyses to the declared type, and leaves the scopes as they are. |
| AnalyzerFacts.UseResolves | Analyzer.c:271-279 | An identifier whose name looks up to a symbol takes that symbol's type. |
| AnalyzerFacts.RedeclarationRejected | Analyzer.c:211-227 | A declaration of a name some open scope already declares is rejected. |
| AnalyzerFacts.FunctionTypesTakeNoParameters | Analyzer.c:152-164 | A function type whose first parameter is a parameter node aborts, since parameter nodes are not expressions. |
| AnalyzerFacts.CallChecks | Analyzer.c:228-243 | An untyped callee dereferences NULL, and a non-function aborts. A wrong argument count aborts before any argument is analysed. |
| AnalyzerFacts.DeclaresX | Analyzer.c:211-227 | `x : = 'c'` declares x as an i8 in the statement's scope. |
| AnalyzerFacts.DeclareThenUse | Analyzer.c:127-137 | In `x : = 'c'` followed by `x`, the use resolves to i8. |
| AnalyzerFacts.DeclareTwice | Analyzer.c:34-46 | Declaring x twice in one statement is a redeclaration. |
| AnalyzerFacts.RedeclareX | Analyzer.c:34-46 | With x visible, declaring it again aborts. |
| AnalyzerFacts.UseWithoutDeclare | Analyzer.c:127-137 | A statement that only uses x fails as undefined, because no declaration survives a statement. |
| Bytecode.BigEndian | Bytecode.c:26-47 | The value a byte sequence spells fits its width. |
| Bytecode.BigEndianAppend | Bytecode.c:31-47 | Reading a concatenation shifts the first part past the second. |
| Bytecode.Word | Bytecode.c:31-35 | The two bytes of a word read back as the value modulo 2^16. |
| Bytecode.Dword | Bytecode.c:37-41 | The four bytes of a double word read back as the value modulo 2^32. |
| Bytecode.Qword | Bytecode.c:43-47 | The eight bytes of a quad word read back as the value modulo 2^64. |
| Bytecode.BinaryOpcode | Bytecode.c:49-94 | Integer, boolean and permitted float types succeed. Exactly booleans and 32- or 64-bit sizes emit one opcode. Other kinds assert and NULL is dereferenced. |
| Bytecode.TypedOpcode | Bytecode.c:96-146 | Integer, float and boolean types succeed and emit at most one opcode, exactly for booleans and the listed sizes. Other kinds assert. |
| Bytecode.InitBytecode | Bytecode.c:16-19 | Initially every name's slot lookup answers -1. |
| Bytecode.GenerateBytecode | Bytecode.c:10-14 | The buffer returned is empty. |
| Bytecode.FindAlloc | Bytecode.c:21-24 | The answer is -1 exactly for names without a slot; otherwise it is the name's 16-bit slot. |
| Bytecode.LoadValue | Bytecode.c:148-152 | A load appends 2 or 3 bytes ending in the slot as a word, and keeps the table. |
| Bytecode.StoreValue | Bytecode.c:154-162 | A store binds the name to the current counter, which its last two bytes spell. The counter then advances, wrapping at 2^16. |
| Bytecode.PushopWord | Bytecode.c:170-174 | The push-word opcode, then a word that reads back as the value modulo 2^16. |
| Bytecode.PushopDword | Bytecode.c:176-180 | The push-word opcode again, then a double word that reads back as the value modulo 2^32. |
| Bytecode.PushopQword | Bytecode.c:182-186 | The push-word opcode again, then a quad word that reads back as the value modulo 2^64. |
| Bytecode.LiteralCode | Bytecode.c:233-252 | A char pushes a byte; integers and doubles push a quad word; an unsigned literal asserts. |
| Bytecode.GenerateExpression | Bytecode.c:217-258 | Code is only appended and bindings only added. The counter advances once per reachable declaration. Other node kinds emit nothing, and an unbound identifier asserts. |
| Bytecode.GenerateId | Bytecode.c:221-226 | An identifier loads its slot; one without a slot asserts. |
| Bytecode.GenerateDecl | Bytecode.c:227-232 | A declaration appends only, and takes exactly one slot beyond its initializer's. |
| Bytecode.GenerateBinary | Bytecode.c:188-215 | A binary expression appends only, and takes the slots of its two operands. |
| BytecodeFacts.WordOfBigEndian | Bytecode.c:31-35 | Any two bytes are the word encoding of the value they spell. |
| BytecodeFacts.WordsAgree | Bytecode.c:31-35 | Two values give the same word exactly when they agree modulo 2^16. |
| BytecodeFacts.BooleansAreInt32 | Bytecode.c:49-146 | Booleans use the 32-bit integer opcodes in both selectors. |
| BytecodeFacts.BuiltinLoadsDistinct | Bytecode.c:96-136 | The six sized built-in types load and store with six distinct opcodes. |
| BytecodeFacts.BuiltinArithmeticDistinct | Bytecode.c:54-84 | i32, i64, f32 and f64 arithmetic use four distinct opcodes, and i8 and i16 get none. |
| BytecodeFacts.ConsecutiveStores | Bytecode.c:154-162 | Successive stores take consecutive slots, and a rebound name denotes the newest slot. |
| BytecodeFacts.LoadAfterStore | Bytecode.c:148-162 | A variable is loaded from the slot it was stored into. |
| BytecodeFacts.NothingToLoad | Bytecode.c:221-226 | A fresh generator asserts on any identifier. |
| BytecodeFacts.DeclarationLayout | Bytecode.c:227-232 | A declaration emits its initializer's code, then a store into the next free slot, which the name then denotes. |
| BytecodeFacts.BinaryLayout | Bytecode.c:188-215 | A binary expression emits the left code, the right code, then at most one opcode, and that only for `+ - * /`. |
| BytecodeFacts.LiteralAppends | Bytecode.c:233-252 | A literal appends exactly its push. |
| BytecodeFacts.LiteralPushes | Bytecode.c:164-186 | A char pushes 2 bytes. Integer and double literals push 9 bytes, whose operand reads back as the value. |
| BytecodeFacts.DeclareThenLoad | Bytecode.c:217-258 | `x : = 'A'` then `x` gives push 65, store slot 0, load slot 0. |

## Left out

- Reading lines, the REPL loop, and printing tokens and errors (`Main.c`) are input/output. A line is a parameter, and an error is a `Failure` value without its message.
- The bump allocator of `Memory.c` and the `stb_ds` arrays and hash tables are replaced by immutable values: sequences and maps.
- Lexer.Escape: the source's shift also copies the byte after the line's NUL. In an unterminated string literal with escapes, the loop can then read bytes that earlier, longer lines left in the reused line buffer (`Main.c` allocates it once), and may close the string on one of them. The model reads every byte past the line as NUL, so it rejects such a statement where the C may accept it. Those bytes depend on input history, which the model does not carry.
- Floating point is not modelled. A double literal keeps its numeral. The 64-bit value the generator pushes for it (`strtod`, then conversion to `u64`) comes from the parameter `doubleToU64`.
- A character of a line stands for one byte, and multi-byte encodings such as UTF-8 are not modelled, because the source reads raw bytes with `fgets`.
- `strtoull`'s leading whitespace and sign are not modelled: the lexer never hands it either.
- The opcode numbers of `Bytecode.h` are not part of this model. They are the parameter `Opcodes`.
- `types_match` is a parameter of the analyzer's `Context`. The source's stub is `NeverMatch`, and its consequences are proved for it.
- Analyzer.AnalyzeExpression: requires that the open scopes plus the block nesting fit in the 256-entry scope array. The source does not check this and would overflow it.
- Analyzer.AnalyzeAst: an empty statement reads the element before its expression array in order to close its scope. The model closes the scope without that read.
- `create_fn_type` and `create_basic_type` allocate the size of a pointer, not of a descriptor. The model treats descriptors as complete values and compares them by value, not by address.
- Identifier lexing copies through an `int` buffer. The model takes the lexeme that was evidently intended.
- `VStrCmp` is taken to be string equality.
- Parser.NumberLiteral: a token size larger than its text reads only the text.
- Array literals (`[`) and structs are not implemented in the source, and are not modelled beyond the failing assertion.
- The 256 MB bytecode buffer has no bound in the model: the buffer is a sequence.
- `get_expression`'s end-of-expressions error cannot fire, because the loop runs exactly as many times as there are expressions.
- Lexer.LexStatement: states the terminator structure of the token list, not each token's value. `LexToken` and the lexer lemmas state those.
