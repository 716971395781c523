# A verified model of a teaching-language compiler front end

The system is the front end of a compiler for a small teaching language. The
language has `begin … end` blocks, `int`/`float` declarations, `if`, `while`,
`print`, `scan`, `return` and functions. The front end runs as one pipeline:

* **the scanner** (`src/lexer.c`) turns NUL-terminated source text into a token
  array ending in an `EOF` token;
* **the scope table** (`src/symtab.c`) is a 256-bucket djb2 hash table of
  symbols with a link to its enclosing scope;
* **the AST builder** (`src/ast.c`) creates nodes and appends children;
* **the parser/resolver** (`src/parser.c`) is a single-pass recursive-descent
  parser. It builds the tree, inserts declarations into the current scope and
  resolves uses against the scope chain. It stops at the first error.

The Dafny project is split into the following modules:

* `Wrappers` holds `Option`, `Result` and `Outcome`.
* `Tokens` holds the token kinds and `Token`.
* `SymTab` has two halves:
  * a value model of one table (`Table`) and of a scope chain, with its lemmas;
  * the heap structure the source mutates (`class Scope`). Its `Create`,
    `Enter`, `Insert`, `LookupCurrent` and `Lookup` are proved to act on
    `View()` exactly as the value model says.
* `Ast` holds the tree as a datatype, with `add_child` as a function.
* `Lexer` has two halves:
  * a reference scanner (`StepAt`, `ScanFrom`, `TokenStream`);
  * `class LexerState` with the source's own loop and doubling buffer.
    `Tokenize` is proved to return exactly `TokenStream(source)`.
* `LexerProps` holds the scanner's properties, stated on the reference scanner.
* `Grammar` is the reference semantics of the parser. Each recognizer is a
  function from the token sequence and a `PState` (cursor, current table,
  enclosing tables, next address) to the node and the new state, or to the
  `ParseError` at which the source calls `exit`.
* `Parser` holds `class ParserState`, whose methods follow `parser.c` statement
  by statement over the heap scopes of `SymTab`. Each method is proved to
  return what the `Grammar` function of the same name returns from the state
  the method starts in. That means the same error, or the same node and exactly
  the state `Grammar` leaves (`Agrees`).
* `GrammarProps` holds the parser's properties, stated on `Grammar`.
* `GrammarExamples` builds a recognizer's result from the results of the
  recognizers it calls, one production at a time. It then applies these steps
  to whole programs: `begin int x = 5; print(x); end` and
  `function int f(int a) begin return a; end begin int x = f(3); end` parse to
  the stated trees and scopes, and `begin y = 2; end` fails.

## Model

| member | source | states |
|---|---|---|
| SymTab.Djb2 | src/symtab.c:7-14 | djb2 in unbounded integers: 5381, then `hash*33 + c` for each character; SymTab.Hash states that the 64-bit loop agrees with it modulo 256 |
| SymTab.HashIndex | src/symtab.c:7-14 | the bucket of a name is below SYMBOL_TABLE_SIZE (256) |
| SymTab.WrappedStep | src/symtab.c:11 | one step of `hash*33 + c` in 64-bit unsigned arithmetic agrees, modulo 2^64, with the unbounded step |
| SymTab.WordThenTable | src/symtab.c:13 | reducing modulo the word size before reducing modulo 256 does not change the bucket, since 256 divides 2^64 |
| SymTab.Hash | src/symtab.c:7-14 | the 64-bit djb2 loop returns an index in [0, 256) equal to djb2 computed in unbounded integers, modulo 256 |
| SymTab.Find | src/symtab.c:59-66 | the walk of one chain finds a symbol only when it is in the chain and has that name; it finds nothing if and only if no symbol of the chain has the name |
| SymTab.Local | src/symtab.c:56-67 | scope_lookup_current on a value: the chain walk of the bucket `hash(name)` alone (Find states what the walk finds; LocalFindsHeld states that it finds every symbol a well-formed table holds) |
| SymTab.InsertSymbol | src/symtab.c:70-92 | scope_insert on a value (InsertFailsIffDeclared states when it fails, InsertThenLocal what the lookup then finds, InsertPreservesWellFormed the invariant it keeps) |
| SymTab.EmptyTable | src/symtab.c:26-28 | every bucket of a fresh table is empty |
| SymTab.EmptyTableWellFormed | src/symtab.c:17-30 | a fresh table satisfies the table invariant and finds no name |
| SymTab.InsertFailsIffDeclared | src/symtab.c:70-75 | insert fails if and only if the name is already in this same table, and the error carries the name and line |
| SymTab.InsertThenLocal | src/symtab.c:77-91 | after a successful insert, the local lookup of the name gives exactly the inserted symbol (kind, type, line, address), and every other name keeps its answer |
| SymTab.InsertPrepends | src/symtab.c:77-91 | insert changes only the bucket `hash(name)`, by prepending one symbol; every other bucket is unchanged |
| SymTab.InsertPreservesWellFormed | src/symtab.c:72-91 | insert preserves the invariant: every symbol sits in the bucket of its name, and no two symbols of a table share a name |
| SymTab.LocalFindsHeld | src/symtab.c:56-67 | in a well-formed table the local lookup finds every symbol the table holds |
| SymTab.FindUnique | src/symtab.c:60-65 | in a chain whose names are distinct, the walk finds each symbol under its own name |
| SymTab.Resolve | src/symtab.c:95-105 | a symbol the chain lookup finds has that name and sits in the bucket `hash(name)` of one of the chain's tables |
| SymTab.ResolveNearest | src/symtab.c:95-105 | the chain lookup returns the answer of the nearest scope holding the name (every nearer scope lacks it), and nothing if and only if no scope of the chain has it |
| SymTab.ShadowingSucceeds | src/symtab.c:70-75 | a name absent from the innermost table can be inserted whatever the enclosing scopes hold, and the chain then resolves it to the new, nearer symbol |
| SymTab.Scope.Create | src/symtab.c:17-30 | scope_create: a valid scope with every bucket empty and no parent |
| SymTab.Scope.Enter | src/symtab.c:49-53 | scope_enter: a valid, empty scope whose parent is the given scope |
| SymTab.Scope.Insert | src/symtab.c:70-92 | scope_insert changes the buckets exactly as the value-level insert says, keeps the invariant, leaves the table unchanged on a redeclaration, and never consults the parent |
| SymTab.LookupCurrent | src/symtab.c:56-67 | scope_lookup_current gives nothing for a null scope and otherwise the value-level local lookup of this scope alone; nothing is modified |
| SymTab.Lookup | src/symtab.c:95-105 | scope_lookup walks the parent links and returns the nearest-scope answer over the tables of the whole chain; nothing is modified |
| Ast.CreateNode | src/ast.c:8-20 | create_node: a node of the given kind and value, with no children and no owned scope |
| Ast.AddChild | src/ast.c:23-35 | add_child on values: a null parent or child leaves the parent as it is; otherwise the child and its sibling chain follow the existing children (stated by AddChildNull, AddChildAppends and AddChildSingle) |
| Ast.AddChildNull | src/ast.c:24 | add_child with a null parent or a null child changes nothing |
| Ast.AddChildAppends | src/ast.c:23-35 | add_child puts the new chain after every existing child; the existing children keep order and contents; kind, value and scope are untouched |
| Ast.AddChildSingle | src/ast.c:29-33 | a child without siblings adds exactly one child, at the end |
| Ast.WithChild | src/ast.c:23-35 | the parser's form of add_child equals add_child on a non-null parent and a child without siblings |
| Lexer.IdentEnd | src/lexer.c:67 | the identifier run ends within the text, at a character that cannot continue an identifier |
| Lexer.DigitsEnd | src/lexer.c:54 | the digit run ends within the text, at a non-digit |
| Lexer.CommentEnd | src/lexer.c:104-106 | a comment body stops at a newline or at the end of the text |
| Lexer.KeywordKind | src/lexer.c:66-77 | the kind of an identifier-shaped word: that of the first keyword-table entry with exactly this word, otherwise IDENTIFIER (stated by KindInFirst and KeywordExact) |
| Lexer.LookupKeyword | src/lexer.c:69-75 | the keyword loop returns the kind that the first table entry with exactly this word gives, or Identifier |
| Lexer.LexemeAt | src/lexer.c:94-158 | every character that starts a token yields a non-empty lexeme inside the text |
| Lexer.StepAt | src/lexer.c:86-159 | one turn of the loop always makes progress: it skips or emits a non-empty slice |
| Lexer.LexerState.constructor | src/lexer.c:81 | tokenize's initial state: cursors at 0, line 1, no tokens, capacity INITIAL_TOKEN_CAPACITY |
| Lexer.LexerState.AddToken | src/lexer.c:36-50 | appends the token with the current line; when the buffer is full its capacity doubles and every earlier token is kept |
| Lexer.LexerState.Number | src/lexer.c:53-63 | number() emits the token the reference scanner gives at this position and ends where it ends |
| Lexer.LexerState.Identifier | src/lexer.c:66-77 | identifier() emits the token the reference scanner gives at this position and ends where it ends |
| Lexer.LexerState.OneOrTwo | src/lexer.c:112-146 | `=`, `!`, `<`, `>` take a following `=` into a two-character token of the double kind, and are otherwise one character of the single kind |
| Lexer.LexerState.SkipComment | src/lexer.c:102-107 | a comment body is skipped up to the next newline or the end, the newline left unread; no token is emitted |
| Lexer.LexerState.Other | src/lexer.c:148-158 | the default case emits the reference scanner's identifier, keyword, number or one-character unknown token |
| Lexer.LexerState.ScanToken | src/lexer.c:86-159 | one turn of the loop does what the reference step says: it skips (counting a newline) or emits exactly that token |
| Lexer.ScanFrom | src/lexer.c:79-165 | the reference scanner: the tokens of the text from a position and a line up to the first NUL or the end, then the end marker (stated by ScanClosed, ScanSliced, ScanGapped and ScanLines) |
| Lexer.TokenStream | src/lexer.c:79-165 | the token stream of a whole text, starting on line 1; Tokenize returns it and StreamWellTerminated states its single final end marker |
| Lexer.ScanStep | src/lexer.c:85-160 | one turn keeps "tokens so far, then the tokens of the rest of the text" equal to the tokens of the whole text |
| Lexer.Tokenize | src/lexer.c:79-165 | tokenize returns exactly the reference token stream, with the count within the buffer |
| LexerProps.IdentRun | src/lexer.c:67 | every character of an identifier run continues an identifier |
| LexerProps.DigitRun | src/lexer.c:54 | every character of a digit run is a digit |
| LexerProps.CommentRun | src/lexer.c:104-106 | a comment body holds no newline and no NUL |
| LexerProps.LexemeOnOneLine | src/lexer.c:53-77 | no lexeme spans a newline |
| LexerProps.ScanLines | src/lexer.c:85-110 | each token carries the starting line plus the number of newlines between the start of the scan and the token |
| LexerProps.LineNumbers | src/lexer.c:81-110 | lines start at 1 and grow by one per newline before the token; a comment stops before its newline, so that newline is counted |
| LexerProps.SkipThenSkippable | src/lexer.c:90-110 | text skipped by one turn followed by skippable text is skippable |
| LexerProps.LexemeNotEof | src/lexer.c:94-158 | no token emitted for a character is the end marker |
| LexerProps.ScanClosed | src/lexer.c:162-163 | a scan ends with the empty end marker "EOF", at the first NUL or the end of the text |
| LexerProps.ScanSliced | src/lexer.c:43-49 | every token but the end marker is the exact non-empty source slice it came from and is not the end marker |
| LexerProps.ScanGapped | src/lexer.c:86-110 | tokens follow in source order without overlap, with only blanks, newlines and comments before the first and between any two |
| LexerProps.SpansLaid | src/lexer.c:79-165 | the whole scan is sliced, gapped and closed |
| LexerProps.StreamWellTerminated | src/lexer.c:85-163 | the stream is non-empty, its last token is the only end marker, and its lexeme is "EOF" |
| LexerProps.KindInFirst | src/lexer.c:69-75 | the first table entry with the word decides its kind; no entry means Identifier |
| LexerProps.KindInDecides | src/lexer.c:69-75 | the kind is that of the first table entry with exactly the word |
| LexerProps.KindInAbsent | src/lexer.c:68-75 | a word no table entry has is an Identifier |
| LexerProps.KeywordTableShape | src/lexer.c:15-23 | no keyword kind is Identifier or the end marker, and the words are pairwise distinct |
| LexerProps.KeywordsDistinct | src/lexer.c:15-23 | no word appears twice in the keyword table |
| LexerProps.KeywordExact | src/lexer.c:66-77 | a word is a keyword if and only if it equals, case-sensitively, a table word, and then it has that word's kind |
| LexerProps.KeywordKindNotEof | src/lexer.c:66-77 | no identifier-shaped word becomes the end marker |
| LexerProps.IdentifierMaximal | src/lexer.c:66-77 | an identifier token is a maximal run of letters, digits and `_` starting with a letter or `_` |
| LexerProps.NumberShape | src/lexer.c:53-63 | a digit run is an integer literal, and a float literal only when a dot and at least one digit follow; the lexeme is digits with at most that one dot |
| LexerProps.TrailingDotIsNotFloat | src/lexer.c:53-63 | `3.` scans as INTEGER "3", UNKNOWN "." and EOF |
| LexerProps.FloatLiteralExample | src/lexer.c:53-63 | `3.25` scans as one FLOAT literal and EOF |
| LexerProps.TwoCharOperators | src/lexer.c:112-146 | `==`, `!=`, `<=`, `>=` win over their one-character prefixes; a lone `!` is UNKNOWN |
| LexerProps.CommentExample | src/lexer.c:102-110 | a comment and its surrounding blanks produce no token, and the newline ending it is counted |
| Grammar.Initial | main.c:57-58 | the parser starts on the first token with one empty global scope and address 0 |
| Grammar.Peek | src/parser.c:17-19 | peek: the token under the cursor, which the cursor invariant keeps in bounds |
| Grammar.Check | src/parser.c:36 | check: whether the token under the cursor has the given kind, without consuming it |
| Grammar.Advance | src/parser.c:22-24 | advance moves exactly one token forward and stays on a token |
| Grammar.Consume | src/parser.c:27-33 | consume succeeds if and only if the current token has the expected kind; it then returns it and moves one token; otherwise the error names the expected kind and the token found |
| Grammar.ParseType | src/parser.c:39-43 | succeeds if and only if the token is `int` or `float`, giving the matching type; moves forward and declares nothing |
| Grammar.Declare | src/parser.c:265 | insertion into the current scope succeeds if and only if the name is not already there; the name then resolves locally to the symbol; otherwise a redeclaration error with its line |
| Grammar.DeclareNext | src/parser.c:137 | the name goes into the current scope with address `next_address`, which then grows by one and nothing else changes; a redeclaration error if the name is already local |
| Grammar.ArgumentList | src/parser.c:46-56 | on success moves forward, opens no scope and declares nothing |
| Grammar.ArgItems | src/parser.c:50-53 | on success moves forward, opens no scope and declares nothing |
| Grammar.FactorStart | src/parser.c:60-85 | the branch chosen matches the current token, and the lookahead to the next token is taken only after an identifier, so it is in bounds |
| Grammar.Factor | src/parser.c:59-86 | on success moves forward, opens no scope and declares nothing |
| Grammar.Variable | src/parser.c:70-76 | on success moves forward, opens no scope and declares nothing |
| Grammar.Parenthesised | src/parser.c:79-84 | on success moves forward, opens no scope and declares nothing |
| Grammar.Call | src/parser.c:60-69 | on success moves forward, opens no scope and declares nothing |
| Grammar.Term | src/parser.c:89-106 | on success moves forward, opens no scope and declares nothing |
| Grammar.ProductKind | src/parser.c:100-104 | `*` builds MUL and `/` builds DIV (OperatorNodesDistinct states that each operator gets its own node kind) |
| Grammar.Negation | src/parser.c:90-96 | on success moves forward, opens no scope and declares nothing |
| Grammar.TermTail | src/parser.c:98-104 | never moves backward, opens no scope and declares nothing |
| Grammar.Expression | src/parser.c:109-131 | on success moves forward, opens no scope and declares nothing |
| Grammar.BinaryKind | src/parser.c:113-126 | each of the eight operators builds its own node kind: ADD, SUB, EQ, NEQ, LT, LTE, GT, GTE (stated by OperatorNodesDistinct) |
| Grammar.ExprTail | src/parser.c:111-129 | never moves backward, opens no scope and declares nothing |
| Grammar.Declaration | src/parser.c:134-153 | on success moves forward, opens no scope and never gives an address back |
| Grammar.ReturnStatement | src/parser.c:156-162 | on success moves forward, opens no scope and declares nothing |
| Grammar.Conditional | src/parser.c:165-179 | on success moves forward; its blocks open no scope; addresses only grow |
| Grammar.ElseBranch | src/parser.c:172-176 | the optional `else` block never moves backward, opens no scope, and addresses only grow |
| Grammar.Loop | src/parser.c:182-190 | on success moves forward; its block opens no scope; addresses only grow |
| Grammar.StatementStart | src/parser.c:193-239 | the branch chosen matches the current token, and the lookahead after an identifier is in bounds |
| Grammar.Statement | src/parser.c:193-240 | on success moves forward, opens no scope, and addresses only grow |
| Grammar.InputOutput | src/parser.c:197-210 | on success moves forward, opens no scope and declares nothing |
| Grammar.DeclarationStatement | src/parser.c:213-217 | on success moves forward, opens no scope, and addresses only grow |
| Grammar.CallStatement | src/parser.c:219-223 | on success moves forward, opens no scope and declares nothing |
| Grammar.Assignment | src/parser.c:225-237 | on success moves forward, opens no scope and declares nothing |
| Grammar.ProgramBlock | src/parser.c:284-293 | a block opens no scope (the enclosing scopes are unchanged), moves forward, and addresses only grow |
| Grammar.BlockItems | src/parser.c:288-290 | never moves backward, opens no scope, and addresses only grow |
| Grammar.ParamItems | src/parser.c:247-253 | on success moves forward, opens no scope, and addresses only grow |
| Grammar.ParameterList | src/parser.c:243-257 | on success moves forward, opens no scope, and addresses only grow |
| Grammar.FunctionDeclaration | src/parser.c:260-281 | on success moves forward, the enclosing scopes are unchanged, and the next address is at least 1 (it is not reset on exit) |
| Grammar.FunctionScope | src/parser.c:265-278 | on success moves forward, the enclosing scopes are unchanged, and the next address is at least 1 |
| Grammar.FunctionParts | src/parser.c:272-275 | the function node owns the scope as the body leaves it |
| Grammar.TopLevelItems | src/parser.c:298-308 | never moves backward and leaves the enclosing scopes unchanged |
| Grammar.TopLevel | src/parser.c:296-310 | never moves backward and leaves the enclosing scopes unchanged |
| Grammar.Parse | src/parser.c:313-320 | succeeds only with the cursor on the end marker |
| Grammar.ParseProgram | main.c:57-59 | a successful parse ends back in the global scope |
| Parser.ParserState.constructor | main.c:57-58 | the driver's parser state is the reference initial state over a fresh global scope |
| Parser.ParserState.Peek | src/parser.c:17-19 | peek on the parser's own state: the token at the cursor |
| Parser.ParserState.Check | src/parser.c:36 | check on the parser's own state: whether the token at the cursor has the kind |
| Parser.ParserState.Advance | src/parser.c:22-24 | advance moves the cursor as the reference advance does |
| Parser.ParserState.Consume | src/parser.c:27-33 | agrees with the reference consume |
| Parser.ParserState.ParseType | src/parser.c:39-43 | agrees with the reference parse_Type |
| Parser.ParserState.Lookup | src/parser.c:62 | scope_lookup from the current scope is the nearest-scope answer over the current and enclosing tables |
| Parser.ParserState.ArgumentList | src/parser.c:46-56 | the same arguments node and state, or the same error, as the reference |
| Parser.ParserState.Factor | src/parser.c:59-86 | agrees with the reference parse_Factor |
| Parser.ParserState.Variable | src/parser.c:70-76 | agrees with the reference identifier branch |
| Parser.ParserState.Parenthesised | src/parser.c:79-84 | agrees with the reference parenthesised branch |
| Parser.ParserState.Call | src/parser.c:60-69 | agrees with the reference call branch |
| Parser.ParserState.Term | src/parser.c:89-106 | the loop over `*` and `/` agrees with the reference parse_Term |
| Parser.ParserState.Negation | src/parser.c:90-96 | agrees with the reference negation branch |
| Parser.ParserState.Expression | src/parser.c:109-131 | the operator loop agrees with the reference parse_Expression |
| Parser.ParserState.Declare | src/parser.c:265 | the in-place insert leaves the state the reference insert gives, or fails with the same error |
| Parser.ParserState.DeclareNext | src/parser.c:137 | the in-place insert and `next_address++` leave exactly the reference state, or fail with the same error |
| Parser.ParserState.Declaration | src/parser.c:134-153 | agrees with the reference parse_Declaration |
| Parser.ParserState.ReturnStatement | src/parser.c:156-162 | agrees with the reference parse_ReturnStatement |
| Parser.ParserState.Conditional | src/parser.c:165-179 | agrees with the reference parse_Conditional |
| Parser.ParserState.Loop | src/parser.c:182-190 | agrees with the reference parse_Loop |
| Parser.ParserState.Statement | src/parser.c:193-240 | agrees with the reference parse_Statement |
| Parser.ParserState.InputOutput | src/parser.c:197-210 | agrees with the reference print/scan branches |
| Parser.ParserState.DeclarationStatement | src/parser.c:213-217 | agrees with the reference declaration branch |
| Parser.ParserState.CallStatement | src/parser.c:219-223 | agrees with the reference call-statement branch |
| Parser.ParserState.Assignment | src/parser.c:225-237 | agrees with the reference assignment branch |
| Parser.ParserState.ProgramBlock | src/parser.c:284-293 | the statement loop agrees with the reference parse_ProgramBlock |
| Parser.ParserState.ParameterList | src/parser.c:243-257 | the do-while loop agrees with the reference parse_ParameterList |
| Parser.ParserState.EnterScope | src/parser.c:269-270 | a fresh empty scope whose parent is the old current scope becomes current, the old table joins the enclosing ones, and the next address is 1 |
| Parser.ParserState.Install | src/parser.c:269-270 | the fresh scope becomes current: its table is the current one seen by the reference, the old table joins the enclosing ones, the next address is 1, and the state stays valid |
| Parser.ParserState.LeaveScope | src/parser.c:278 | the parent becomes current again and its table leaves the enclosing ones |
| Parser.ParserState.FunctionDeclaration | src/parser.c:260-281 | agrees with the reference parse_FunctionDeclaration and restores the current scope |
| Parser.ParserState.FunctionScope | src/parser.c:265-278 | agrees with the reference and restores the current scope |
| Parser.ParserState.InFunctionScope | src/parser.c:269-278 | agrees with the reference parser's FunctionParts read in a fresh, empty scope inside the current one with addresses from 1; on success the current scope and the enclosing ones are restored as they were |
| Parser.ParserState.FunctionParts | src/parser.c:272-275 | agrees with the reference and stays in the function's scope |
| Parser.ParserState.TopLevel | src/parser.c:296-310 | the top-level loop agrees with the reference parse_TopLevel |
| Parser.ParserState.Parse | src/parser.c:313-320 | agrees with the reference parse |
| Parser.ParseTokens | main.c:57-59 | the driver's tree, or its error, is the reference parser's |
| GrammarProps.TermTailStops | src/parser.c:98-104 | the loop of parse_Term stops only at a token that is neither `*` nor `/` |
| GrammarProps.TermTakesProducts | src/parser.c:97-106 | a term not starting with `-` takes every `*` and `/` that follows: they bind tighter than the expression operators |
| GrammarProps.ExprTailStops | src/parser.c:111-129 | the loop of parse_Expression stops only at a token that is not one of its eight operators |
| GrammarProps.ExpressionTakesOperators | src/parser.c:109-131 | an expression takes every operator of its level that follows |
| GrammarProps.ExpressionLeftAssociative | src/parser.c:109-131 | `a op1 b op2 c` is op2(op1(a, b), c) for any mix of the eight operators: one shared level, left-associative |
| GrammarProps.ExprTailStep | src/parser.c:111-127 | one round of the loop makes the tree so far the left operand of the new node |
| GrammarProps.TermLeftAssociative | src/parser.c:97-106 | `a op1 b op2 c` over `*` and `/` is op2(op1(a, b), c) |
| GrammarProps.TermTailStep | src/parser.c:98-104 | one round of the loop makes the tree so far the left operand of the new node |
| GrammarProps.OperatorNodesDistinct | src/parser.c:100-126 | no two operators share a node kind, within parse_Term's loop, within parse_Expression's loop, or across the two, so the tree records which operator was read |
| GrammarProps.ParenthesesAddNoNode | src/parser.c:79-84 | a parenthesised expression is the inner tree, with no wrapper node |
| GrammarProps.ParenthesisedResult | src/parser.c:79-84 | the `(` branch yields the inner expression and ends after `)` |
| GrammarProps.NegationTakesOneFactor | src/parser.c:90-96 | a term starting with `-` is NEGATE of exactly one factor and ends where that factor ends, even before `*` or `/` |
| GrammarProps.NegationStopsAtProduct | src/parser.c:90-96 | `- 1 * 2` as an expression is NEGATE(1) and stops at the `*` |
| GrammarProps.VariableResolution | src/parser.c:70-76 | a bare name parses if and only if it resolves somewhere in the chain, to a symbol of any kind; it is then an IDENTIFIER node taking one token, otherwise an undeclared-variable error |
| GrammarProps.ArgItemsAppend | src/parser.c:50-53 | the argument loop keeps the list node and the arguments already there, and appends at least one |
| GrammarProps.ArgumentListNode | src/parser.c:46-56 | an argument list is an ARG_LIST node with no text |
| GrammarProps.CallResolution | src/parser.c:60-69 | `f(...)` must resolve through the whole chain to a function or procedure, or it is a not-callable error; it then parses if and only if its arguments do, as FUNC_CALL(f)[ARG_LIST] |
| GrammarProps.CallBuilds | src/parser.c:60-69 | a callable name with a parsed argument list gives FUNC_CALL(f) over that list |
| GrammarProps.CallPassesOnError | src/parser.c:66 | an argument-list error is the call's error |
| GrammarProps.AssignmentResolution | src/parser.c:225-237 | a statement `x = …` with x unresolved is an undeclared-assignment error; with x resolved (to a symbol of any kind) it parses if and only if `=`, an expression and `;` follow, and then it is ASSIGNMENT(x) whose one child is that expression, ending after the `;` |
| GrammarProps.EmptyArgumentList | src/parser.c:46-56 | `()` is an empty ARG_LIST taking two tokens |
| GrammarProps.TrailingCommaInArguments | src/parser.c:50-53 | `)` where an argument is required, as after a trailing comma, is an error |
| GrammarProps.EmptyParameterList | src/parser.c:243-257 | `()` is an empty PARAM_LIST that declares nothing |
| GrammarProps.TrailingCommaInParameters | src/parser.c:247-253 | `)` where a parameter is required, as after a trailing comma, is an error |
| GrammarProps.DeclarationRejectsRedeclaration | src/parser.c:134-137 | `T x` with x already in the current scope is a redeclaration error with x's line; enclosing scopes are not consulted |
| GrammarProps.DeclarationDeclares | src/parser.c:134-153 | a declaration that parses started with a type and a name x absent from the current scope, and put x into the current scope as a variable with that type, its line and the address `next_address`, which is then taken |
| GrammarProps.DeclarationKeepsNames | src/parser.c:134-153 | a declaration only adds to the current scope: every name already there keeps its symbol |
| GrammarProps.ConditionalKeepsNames | src/parser.c:165-179 | an `if` keeps every name of the current scope with its symbol, the declarations in its blocks going into that same scope |
| GrammarProps.ElseBranchKeepsNames | src/parser.c:172-176 | the `else` block keeps every name of the current scope with its symbol |
| GrammarProps.LoopKeepsNames | src/parser.c:182-190 | a `while` keeps every name of the current scope with its symbol |
| GrammarProps.StatementKeepsNames | src/parser.c:193-240 | no statement removes or changes a name of the current scope |
| GrammarProps.ProgramBlockKeepsNames | src/parser.c:284-293 | a block opens no scope and keeps every name of the current scope with its symbol, however deeply its statements nest |
| GrammarProps.BlockItemsKeepsNames | src/parser.c:288-290 | the statements of a block, read one after another, keep every name of the current scope with its symbol |
| GrammarProps.RedeclarationLater | src/parser.c:134-137 | once `T x` is declared, a later `T x` in any state whose scope kept the names (as every statement and block does) is a redeclaration error with the later line |
| GrammarProps.RedeclarationAfterStatement | src/parser.c:134-137 | in `T x; S T x;` the second declaration is a redeclaration error, whatever statement S is, even an `if` or `while` that declares names in its body |
| GrammarProps.DeclarationPlain | src/parser.c:134-153 | without `=` the result is DECLARATION(x) and ends after the name |
| GrammarProps.DeclarationWithInitialiser | src/parser.c:145-150 | with `=` the result is DECL_ASSIGN[DECLARATION(x), ASSIGNMENT(x)[e]], where e is the expression read after `=` in the state that already holds x, and the declaration ends where that expression ends |
| GrammarProps.InitialiserSeesItsName | src/parser.c:137-149 | `int x = x` parses: the name is inserted before the initialiser is read |
| GrammarProps.DeclareNextKeeps | src/parser.c:137 | declaring one name leaves every other local name as it was |
| GrammarProps.ParamItemsStep | src/parser.c:247-253 | one parameter is declared in the current scope as a parameter with the next address, which is then taken; other names are untouched |
| GrammarProps.ParamItemsCount | src/parser.c:247-253 | the parameter loop appends one PARAM node per parameter after those already there and takes one address per parameter |
| GrammarProps.ParamItemsKeep | src/parser.c:247-253 | the parameter loop leaves names already in the scope as they were |
| GrammarProps.ParamItemsNumber | src/parser.c:247-253 | the loop declares parameter k with address next + k |
| GrammarProps.ParameterListItems | src/parser.c:243-257 | a parameter list is empty at `)`, and otherwise the parameter loop from after `(` |
| GrammarProps.ParameterListCount | src/parser.c:243-257 | a parameter list is a PARAM_LIST with no text and takes one address per parameter |
| GrammarProps.ParameterListNumber | src/parser.c:243-257 | parameter k (from 0) is a PARAM node declared as a parameter with address next + k |
| GrammarProps.BlockItemsKeep | src/parser.c:288-290 | the block loop keeps the block node's kind and text |
| GrammarProps.ProgramBlockNode | src/parser.c:284-293 | a block is a BLOCK node |
| GrammarProps.FunctionPartsNode | src/parser.c:266-275 | inside its scope the function is FUNC_DECL(f) with two children, owning the scope as the body leaves it |
| GrammarProps.FunctionParameters | src/parser.c:272 | the function's first child is the parameter list read in the function's scope |
| GrammarProps.FunctionBody | src/parser.c:273 | the second child is the block read from where the parameters end |
| GrammarProps.FunctionPartsChildren | src/parser.c:272-273 | the children are a PARAM_LIST and a BLOCK, and the next address is past the parameters |
| GrammarProps.FunctionScopeDeclares | src/parser.c:265-278 | the function's symbol goes into the enclosing scope, which must lack the name; afterwards that scope is current again, holding the function and otherwise unchanged |
| GrammarProps.FunctionScopeInner | src/parser.c:269-275 | parameters and body are read in a fresh empty scope inside the one holding the function, with addresses from 1; the next address stays as the body leaves it |
| GrammarProps.OwnNameResolves | src/parser.c:265-269 | in the function's fresh scope the function's own name resolves to it, so the body may call itself |
| GrammarProps.FunctionDeclared | src/parser.c:260-265 | `function T f` puts f into the current scope as a function of type T with its line and address 0, f being absent before |
| GrammarProps.FunctionRedeclared | src/parser.c:265 | `function T f` with f already in the current scope is a redeclaration error with f's line |
| GrammarProps.FunctionDeclarationNode | src/parser.c:266-280 | a function declaration is FUNC_DECL(f)[PARAM_LIST, BLOCK] |
| GrammarProps.FunctionAddresses | src/parser.c:269-275 | parameters get addresses 1..N in the function's scope, the body is read in that scope with numbering continuing after them, the next address is left as the body leaves it, and the node owns the scope as the body leaves it |
| GrammarProps.FunctionOwnsParameters | src/parser.c:248-278 | the scope a FUNC_DECL node owns still holds every parameter as a PARAMETER symbol at addresses 1..N in order: the body never displaces a parameter |
| GrammarProps.EmptyProgram | src/parser.c:296-320 | a stream holding only EOF is an empty PROGRAM |
| GrammarProps.TopLevelRejects | src/parser.c:304-307 | a top-level token other than `function`, `begin` or EOF is an error |
| GrammarProps.TrailingAfterMain | src/parser.c:301-318 | the main block ends the loop; anything after it other than EOF is a trailing-tokens error carrying its text |
| GrammarProps.TopLevelItemsKeep | src/parser.c:298-308 | the top-level loop keeps the program node's kind, text and scope, and items already there stay first |
| GrammarProps.TopLevelFunctionStep | src/parser.c:299-300 | at `function` the loop reads one declaration, appends it and goes on; the next address is then at least 1 and is not reset |
| GrammarProps.TopLevelMainStep | src/parser.c:301-303 | at `begin` the main block is appended and the loop ends |
| GrammarProps.TopLevelItemsShape | src/parser.c:298-308 | every item the loop adds is a FUNC_DECL, except that the last may be the main BLOCK |
| GrammarProps.ProgramShape | src/parser.c:296-320 | a program is a PROGRAM node with no text or scope whose children are FUNC_DECLs, optionally followed by a last BLOCK, and the cursor ends on EOF |
| GrammarExamples.MainProgram | src/parser.c:296-320 | a program that is only a main block, followed by EOF, is PROGRAM over that block |
| GrammarExamples.MainProgramFails | src/parser.c:296-308 | a program that is only a main block fails with that block's error |
| GrammarExamples.FunctionThenMain | src/parser.c:296-320 | one function declaration and then the main block give PROGRAM over both, in order, the block read in the state the function leaves |
| GrammarExamples.BlockParses | src/parser.c:284-293 | `begin`, statements that stop on `end`, `end` give the block those statements built |
| GrammarExamples.BlockFails | src/parser.c:284-293 | a block fails with the error of its statements |
| GrammarExamples.BlockEnds | src/parser.c:288-290 | at `end` the block loop stops with the block built so far |
| GrammarExamples.StatementThen | src/parser.c:288-290 | elsewhere the block loop appends one statement and goes on from where it ends |
| GrammarExamples.LastStatement | src/parser.c:288-292 | a statement followed by `end` is the last child of its block |
| GrammarExamples.StatementFails | src/parser.c:288-290 | a statement that fails ends the block loop with its error |
| GrammarExamples.PrintStatement | src/parser.c:193-204 | a statement starting with `print` is read by the print branch |
| GrammarExamples.PrintParses | src/parser.c:197-203 | `print`, an argument list and `;` give PRINT over that list |
| GrammarExamples.ReturnParses | src/parser.c:156-162 | `return`, an expression and `;` give RETURN over that expression |
| GrammarExamples.DeclarationStatementParses | src/parser.c:213-217 | a statement starting with `int` is a declaration followed by `;` |
| GrammarExamples.InitialisedDeclaration | src/parser.c:134-149 | `int x = e` with x new declares x before e is read and gives DECL_ASSIGN[DECLARATION x, ASSIGNMENT x[e]] |
| GrammarExamples.InitialisedDeclarationParses | src/parser.c:213-217 | `int x = e;` is that DECL_ASSIGN as a statement |
| GrammarExamples.IntegerParses | src/parser.c:77 | an integer literal is a factor holding its own text |
| GrammarExamples.LoneFactor | src/parser.c:89-130 | a factor with no leading `-` and no operator after it is the whole expression |
| GrammarExamples.OneArgument | src/parser.c:46-56 | `(e)` gives ARG_LIST[e] |
| GrammarExamples.VariableExpression | src/parser.c:70-76 | a declared name not followed by `(` or an operator is an IDENTIFIER expression of one token |
| GrammarExamples.VariableArgument | src/parser.c:46-56 | `(v)` with v declared gives ARG_LIST[v] |
| GrammarExamples.IntegerArgument | src/parser.c:46-56 | `(n)` with n an integer literal gives ARG_LIST[n] |
| GrammarExamples.CallIntegerFactor | src/parser.c:60-69 | `f(n)` with f a function gives FUNC_CALL f[ARG_LIST[n]] |
| GrammarExamples.UndeclaredRejected | src/parser.c:225-230 | `begin y = 2; end` fails as an assignment to the undeclared y |
| GrammarExamples.IntegerDeclarationParses | src/parser.c:134-149 | `int x = n;` with x new gives DECL_ASSIGN[DECLARATION x, ASSIGNMENT x[n]] |
| GrammarExamples.DeclareThenPrintBlock | src/parser.c:284-291 | the statements of `begin int x = n; print(x); end` are both statements in order, with x declared at address 0 |
| GrammarExamples.DeclareThenPrintMain | src/parser.c:284-293 | that main block parses to BLOCK of both statements and ends after `end` |
| GrammarExamples.DeclareThenPrintProgram | src/parser.c:296-320 | `begin int x = n; print(x); end` parses to PROGRAM[BLOCK[DECL_ASSIGN[DECLARATION x, ASSIGNMENT x[n]], PRINT[ARG_LIST[x]]]], with x an integer variable at address 0 of the global scope |
| GrammarExamples.MainOnlyParses | src/parser.c:296-320 | the tokens of `begin int x = 5; print(x); end` parse to that tree, with x at address 0 |
| GrammarExamples.OneParameter | src/parser.c:246-253 | `int a` with no comma after it gives one PARAM a and declares a as a parameter at the next address |
| GrammarExamples.ParametersParse | src/parser.c:243-257 | `(`, parameters that stop on `)`, `)` give the parameter list they built |
| GrammarExamples.OneParameterList | src/parser.c:243-257 | `(int a)` gives PARAM_LIST[PARAM a] |
| GrammarExamples.ReturnVariableParses | src/parser.c:156-162 | `return v;` with v declared gives RETURN[v] |
| GrammarExamples.ReturnBlockItems | src/parser.c:288-290 | the statements of `begin return v; end` are the one RETURN[v] |
| GrammarExamples.ReturnBlockParses | src/parser.c:284-293 | `begin return v; end` gives BLOCK[RETURN[v]] |
| GrammarExamples.FunctionHeader | src/parser.c:260-264 | `function int f` gives f's symbol, a function of type int at address 0, and the rest is read in f's scope |
| GrammarExamples.FunctionScopeParses | src/parser.c:264-280 | once f is in the current scope, its parameters and body are read in a fresh scope with addresses from 1, and the enclosing scope is current again afterwards |
| GrammarExamples.FunctionDeclarationParses | src/parser.c:260-281 | a function declaration is its header and then the rest read in its own scope |
| GrammarExamples.IdentityParts | src/parser.c:272-275 | `(int a) begin return a; end` gives the FUNC_DECL node with PARAM_LIST[a] and BLOCK[RETURN[a]], owning the scope that holds a |
| GrammarExamples.FirstDeclaration | src/symtab.c:70-92 | the first symbol inserted into an empty scope is the only name it holds |
| GrammarExamples.IdentityFunctionAt | src/parser.c:260-281 | `function int f(int a) begin return a; end` parses to FUNC_DECL f[PARAM_LIST[a], BLOCK[RETURN[a]]] and returns to the enclosing scope |
| GrammarExamples.IdentityFunctionParses | src/parser.c:260-281 | as the first item of a program, that function owns a scope holding a as a parameter at address 1; the global scope then holds only f, at address 0, and address 2 is next |
| GrammarExamples.DeclareCallParses | src/parser.c:134-149 | `int x = f(n);` with x new and f a function gives DECL_ASSIGN[DECLARATION x, ASSIGNMENT x[FUNC_CALL f[ARG_LIST[n]]]] |
| GrammarExamples.CallingMain | src/parser.c:284-293 | the main block `begin int x = f(n); end` gives BLOCK over that declaration |
| GrammarExamples.IdentityThenCallProgram | src/parser.c:296-320 | `function int f(int a) begin return a; end begin int x = f(n); end` parses to PROGRAM over the function and the main block; f's scope holds a at address 1, and the global scope holds f at address 0 and x at address 2 |
| GrammarExamples.WithFunctionParses | src/parser.c:296-320 | the tokens of `function int f(int a) begin return a; end begin int x = f(3); end` parse to that tree, with a, f and x at addresses 1, 0 and 2 |

## Left out

- I/O in main.c: reading the file, argv handling and exit codes are not modelled, and neither is any printing of tokens, symbols or the tree. `scope_dump` and `print_ast` are diagnostic output and are not modelled. Nor is `token_type_to_string` (src/token.c), which only feeds messages.
- Teardown: `scope_destroy`, `free_ast` and `free_tokens` only release memory, so they are not modelled.
- Failure paths: the text of error messages, `perror`, and `malloc`/`realloc` failure are not modelled. Each `exit(EXIT_FAILURE)` becomes a `ParseError`, carrying a line only where the message prints one.
- Characters: `isalpha`/`isdigit`/`isalnum` are modelled on ASCII only. Locale behaviour and the signedness of non-ASCII bytes in `hash` are not modelled.
- Integer width: `line`, `token_count` and `next_address` are C `int` values; the model uses unbounded integers, so their overflow is not modelled. The hash is modelled with its 64-bit wrap-around.
- Ast.AddChild: the tree is a value. `add_child`'s walk of the sibling chain and its in-place rewrite of a `sibling` pointer are modelled by their result, the appended child sequence, so sharing of subtrees is not modelled.
- Function scopes: a function node's `scope` is the table its scope holds when the body ends. There is no pointer, and no arena of retained scopes. Nothing writes to that scope after the function ends, so the contents are the same.
- Lexer.LexerState.AddToken: the `realloc` keeps the buffer's contents, and the model copies them into a fresh array of double the size. Address identity of the buffer is not modelled.
- Procedures: `TOKEN_PROCEDURE`, `NODE_PROC_DECL`, `NODE_TYPE_INT`, `NODE_TYPE_FLOAT` and `KIND_PROCEDURE` are declared but never produced by the parser, so no procedure declaration is parsed. A call still accepts a procedure symbol, as the source does.
- The `default: type = -1` branch of parse_Expression (src/parser.c:124) is unreachable, because the loop only runs on the eight operators. The model has no such branch.
- `NODE_DECL_ASSIGN` is used at src/parser.c:146 but is missing from the `NodeType` enum of includes/ast.h. It is modelled as `DeclAssignNode`.
- Well-formed programs in general: no lemma states that every program meeting the declaration rules parses. Success is characterised production by production instead, by `Consume`, `ParseType`, `VariableResolution`, `CallResolution` and `AssignmentResolution`, and shown for whole programs by the lemmas of `GrammarExamples`.
- Parser.ParserState.Advance: its bound test `current < token_count` is kept, but no caller can reach the false branch. Callers never advance past the end marker, which `Advance` requires.
