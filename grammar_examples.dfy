/** Whole programs run through the reference parser. The first part builds
    a recognizer's result from the results of the recognizers it calls, one
    production at a time; the second applies these steps to the token
    streams the scanner produces for three small programs and states what
    ParseProgram makes of each: `begin int x = 5; print(x); end` and
    `function int f(int a) begin return a; end begin int x = f(3); end`
    parse, giving the stated tree and scopes, and `begin y = 2; end` fails
    because y is not declared. */
module GrammarExamples {
  import opened Wrappers
  import opened Tokens
  import opened SymTab
  import opened Ast
  import opened Grammar
  import opened GrammarProps

  /** The state `n` tokens further on. */
  function Ahead(st: PState, n: nat): PState {
    st.(pos := st.pos + n)
  }

  // ---------------------------------------------------------------------------
  // Tree shapes

  /** IDENTIFIER(x): a use of the name x. */
  function Name(x: string): Node {
    CreateNode(IdentifierNode, Some(x))
  }

  /** INT_LITERAL(n): an integer literal of text n. */
  function Number(n: string): Node {
    CreateNode(IntLiteralNode, Some(n))
  }

  /** ARG_LIST[e]: the argument list `(e)`. */
  function ArgsOf(e: Node): Node {
    WithChild(CreateNode(ArgListNode, None), e)
  }

  /** FUNC_CALL(f)[ARG_LIST[e]]: the call `f(e)`. */
  function CallOf(f: string, e: Node): Node {
    WithChild(CreateNode(FuncCallNode, Some(f)), ArgsOf(e))
  }

  /** PRINT[ARG_LIST[e]]: the statement `print(e);`. */
  function PrintOf(e: Node): Node {
    WithChild(CreateNode(PrintNode, None), ArgsOf(e))
  }

  /** RETURN[e]: the statement `return e;`. */
  function ReturnOf(e: Node): Node {
    WithChild(CreateNode(ReturnNode, None), e)
  }

  /** DECL_ASSIGN[DECLARATION(x), ASSIGNMENT(x)[e]]: the statement `T x = e;`. */
  function DeclAssign(x: string, e: Node): Node {
    Binary(DeclAssignNode, CreateNode(DeclarationNode, Some(x)), WithChild(CreateNode(AssignmentNode, Some(x)), e))
  }

  /** BLOCK[s]: a block of the one statement s. */
  function BlockOf(s: Node): Node {
    WithChild(CreateNode(BlockNode, None), s)
  }

  /** PARAM_LIST[PARAM(a)]: the parameter list `(int a)`. */
  function ParamsOf(a: string): Node {
    WithChild(CreateNode(ParamListNode, None), CreateNode(ParamNode, Some(a)))
  }

  /** FUNC_DECL(f)[PARAM_LIST[a], BLOCK[RETURN[a]]] owning `scope`: the
      function `function int f(int a) begin return a; end`. */
  function Identity(f: string, a: string, scope: Table): Node {
    WithChild(WithChild(CreateNode(FuncDeclNode, Some(f)), ParamsOf(a)), BlockOf(ReturnOf(Name(a)))).(scope := Some(scope))
  }

  // ---------------------------------------------------------------------------
  // Programs

  /** A program that is only a main block: PROGRAM over that block, provided
      the end marker follows it. */
  lemma {:induction false} MainProgram(toks: seq<Token>, main: Node, s: PState)
    requires 0 < |toks| && toks[|toks| - 1].kind == Eof && toks[0].kind == Begin
    requires ProgramBlock(toks, Initial()) == Ok((main, s)) && Check(toks, s, Eof)
    ensures ParseProgram(toks) == Ok((WithChild(CreateNode(ProgramNode, None), main), s))
  {
  }

  /** A program that is only a main block fails as that block does. */
  lemma {:induction false} MainProgramFails(toks: seq<Token>)
    requires 0 < |toks| && toks[|toks| - 1].kind == Eof && toks[0].kind == Begin
    requires ProgramBlock(toks, Initial()).Err?
    ensures ParseProgram(toks) == Err(ProgramBlock(toks, Initial()).error)
  {
  }

  /** One function and then the main block: PROGRAM over both, in order; the
      main block is read in the state the function leaves. */
  lemma {:induction false} FunctionThenMain(toks: seq<Token>, fn: Node, fs: PState, main: Node, s: PState)
    requires 0 < |toks| && toks[|toks| - 1].kind == Eof && toks[0].kind == Function
    requires FunctionDeclaration(toks, Initial()) == Ok((fn, fs)) && Check(toks, fs, Begin)
    requires ProgramBlock(toks, fs) == Ok((main, s)) && Check(toks, s, Eof)
    ensures ParseProgram(toks) == Ok((WithChild(WithChild(CreateNode(ProgramNode, None), fn), main), s))
  {
    var program := WithChild(CreateNode(ProgramNode, None), fn);
    assert TopLevelItems(toks, fs, program) == Ok((WithChild(program, main), s));
  }

  // ---------------------------------------------------------------------------
  // Blocks

  /** `begin`, statements that leave the cursor on `end`, `end`. */
  lemma {:induction false} BlockParses(toks: seq<Token>, st: PState, body: Node, s: PState)
    requires Ready(toks, st) && Check(toks, st, Begin)
    requires BlockItems(toks, Advance(toks, st), CreateNode(BlockNode, None)) == Ok((body, s)) && Check(toks, s, End)
    ensures ProgramBlock(toks, st) == Ok((body, Advance(toks, s)))
  {
  }

  /** A block whose statements fail fails with their error. */
  lemma {:induction false} BlockFails(toks: seq<Token>, st: PState)
    requires Ready(toks, st) && Check(toks, st, Begin)
    requires BlockItems(toks, Advance(toks, st), CreateNode(BlockNode, None)).Err?
    ensures ProgramBlock(toks, st) == Err(BlockItems(toks, Advance(toks, st), CreateNode(BlockNode, None)).error)
  {
  }

  /** At `end` the loop of parse_ProgramBlock stops with the block so far. */
  lemma {:induction false} BlockEnds(toks: seq<Token>, st: PState, block: Node)
    requires Ready(toks, st) && Check(toks, st, End)
    ensures BlockItems(toks, st, block) == Ok((block, st))
  {
  }

  /** Anywhere else one statement is appended and the loop goes on from
      where it ends. */
  lemma {:induction false} StatementThen(toks: seq<Token>, st: PState, block: Node, stmt: Node, s: PState)
    requires Ready(toks, st) && !Check(toks, st, End) && Statement(toks, st) == Ok((stmt, s))
    ensures BlockItems(toks, st, block) == BlockItems(toks, s, WithChild(block, stmt))
  {
  }

  /** A statement followed by `end` is the last one of its block. */
  lemma {:induction false} LastStatement(toks: seq<Token>, st: PState, block: Node, stmt: Node, s: PState)
    requires Ready(toks, st) && !Check(toks, st, End) && Statement(toks, st) == Ok((stmt, s)) && Check(toks, s, End)
    ensures BlockItems(toks, st, block) == Ok((WithChild(block, stmt), s))
  {
    StatementThen(toks, st, block, stmt, s);
    BlockEnds(toks, s, WithChild(block, stmt));
  }

  /** A statement that fails ends the loop with its error. */
  lemma {:induction false} StatementFails(toks: seq<Token>, st: PState, block: Node)
    requires Ready(toks, st) && !Check(toks, st, End) && Statement(toks, st).Err?
    ensures BlockItems(toks, st, block) == Err(Statement(toks, st).error)
  {
  }

  // ---------------------------------------------------------------------------
  // Statements

  /** A statement that starts with `print` is read by the input-output branch. */
  lemma {:induction false} PrintStatement(toks: seq<Token>, st: PState)
    requires Ready(toks, st) && Check(toks, st, Print)
    ensures Statement(toks, st) == InputOutput(toks, st)
  {
    assert StatementStart(toks, st.pos) == InputOutputForm;
  }

  /** `print` and an argument list and `;`. */
  lemma {:induction false} PrintParses(toks: seq<Token>, st: PState, args: Node, s: PState)
    requires Ready(toks, st) && Check(toks, st, Print)
    requires ArgumentList(toks, Advance(toks, st)) == Ok((args, s)) && Check(toks, s, Semicolon)
    ensures Statement(toks, st) == Ok((WithChild(CreateNode(PrintNode, None), args), Advance(toks, s)))
  {
    PrintStatement(toks, st);
  }

  /** `return`, an expression, `;`. */
  lemma {:induction false} ReturnParses(toks: seq<Token>, st: PState, e: Node, s: PState)
    requires Ready(toks, st) && Check(toks, st, Return)
    requires Expression(toks, Advance(toks, st)) == Ok((e, s)) && Check(toks, s, Semicolon)
    ensures Statement(toks, st) == Ok((ReturnOf(e), Advance(toks, s)))
  {
    assert StatementStart(toks, st.pos) == ReturnForm;
  }

  /** A statement that starts with a type is a declaration and `;`. */
  lemma {:induction false} DeclarationStatementParses(toks: seq<Token>, st: PState, decl: Node, s: PState)
    requires Ready(toks, st) && Check(toks, st, Int)
    requires Declaration(toks, st) == Ok((decl, s)) && Check(toks, s, Semicolon)
    ensures Statement(toks, st) == Ok((decl, Advance(toks, s)))
  {
    assert StatementStart(toks, st.pos) == DeclarationForm;
  }

  /** `int x = e` with x new to the current scope: x is declared (state
      `d`) before e is read, and the declaration is
      DECL_ASSIGN[DECLARATION(x), ASSIGNMENT(x)[e]]. */
  lemma {:induction false} InitialisedDeclaration(toks: seq<Token>, st: PState, d: PState, e: Node, s: PState)
    requires Ready(toks, st) && st.pos + 3 < |toks|
    requires toks[st.pos].kind == Int && toks[st.pos + 1].kind == Identifier && toks[st.pos + 2].kind == Assign
    requires DeclareNext(st.(pos := st.pos + 2), toks[st.pos + 1].lexeme, VariableKind, IntegerType, toks[st.pos + 1].line) == Ok(d)
    requires Expression(toks, d.(pos := d.pos + 1)) == Ok((e, s))
    ensures Declaration(toks, st) == Ok((DeclAssign(toks[st.pos + 1].lexeme, e), s))
  {
    assert ParseType(toks, st) == Ok((IntegerType, st.(pos := st.pos + 1)));
  }

  /** `int x = e;`: the declaration of InitialisedDeclaration and `;`. */
  lemma {:induction false} InitialisedDeclarationParses(toks: seq<Token>, st: PState, d: PState, e: Node, s: PState)
    requires Ready(toks, st) && st.pos + 3 < |toks|
    requires toks[st.pos].kind == Int && toks[st.pos + 1].kind == Identifier && toks[st.pos + 2].kind == Assign
    requires DeclareNext(st.(pos := st.pos + 2), toks[st.pos + 1].lexeme, VariableKind, IntegerType, toks[st.pos + 1].line) == Ok(d)
    requires Expression(toks, d.(pos := d.pos + 1)) == Ok((e, s)) && Check(toks, s, Semicolon)
    ensures Statement(toks, st) == Ok((DeclAssign(toks[st.pos + 1].lexeme, e), Advance(toks, s)))
  {
    InitialisedDeclaration(toks, st, d, e, s);
    DeclarationStatementParses(toks, st, DeclAssign(toks[st.pos + 1].lexeme, e), s);
  }

  // ---------------------------------------------------------------------------
  // Expressions and argument lists

  /** An integer literal is a factor of its own text. */
  lemma {:induction false} IntegerParses(toks: seq<Token>, st: PState)
    requires Ready(toks, st) && Check(toks, st, IntegerLiteral)
    ensures Factor(toks, st) == Ok((Number(Peek(toks, st).lexeme), Advance(toks, st)))
  {
    assert FactorStart(toks, st.pos) == IntegerFactor;
  }

  /** A factor that starts with no `-` and is followed by no operator is the
      whole expression. */
  lemma {:induction false} LoneFactor(toks: seq<Token>, st: PState, n: Node, s: PState)
    requires Ready(toks, st) && !Check(toks, st, Minus) && Factor(toks, st) == Ok((n, s))
    requires !IsTermOperator(toks[s.pos].kind) && !IsExpressionOperator(toks[s.pos].kind)
    ensures Expression(toks, st) == Ok((n, s))
  {
    assert TermTail(toks, s, n) == Ok((n, s));
    assert Term(toks, st) == Ok((n, s));
  }

  /** `(`, one expression, `)`: an ARG_LIST over that expression. */
  lemma {:induction false} OneArgument(toks: seq<Token>, st: PState, e: Node, s: PState)
    requires Ready(toks, st) && Check(toks, st, LParen) && !Check(toks, Advance(toks, st), RParen)
    requires Expression(toks, Advance(toks, st)) == Ok((e, s)) && Check(toks, s, RParen)
    ensures ArgumentList(toks, st) == Ok((ArgsOf(e), Advance(toks, s)))
  {
    assert ArgItems(toks, Advance(toks, st), CreateNode(ArgListNode, None)) == Ok((ArgsOf(e), s));
  }

  /** A declared name followed by neither `(` nor an operator is a whole
      expression, read as an IDENTIFIER node. */
  lemma {:induction false} VariableExpression(toks: seq<Token>, st: PState)
    requires Ready(toks, st) && Check(toks, st, Identifier) && st.pos + 1 < |toks|
    requires toks[st.pos + 1].kind != LParen
    requires !IsTermOperator(toks[st.pos + 1].kind) && !IsExpressionOperator(toks[st.pos + 1].kind)
    requires Resolve(Scopes(st), toks[st.pos].lexeme).Some?
    ensures Expression(toks, st) == Ok((Name(toks[st.pos].lexeme), Ahead(st, 1)))
  {
    assert FactorStart(toks, st.pos) == VariableFactor;
    VariableResolution(toks, st);
    LoneFactor(toks, st, Name(toks[st.pos].lexeme), Ahead(st, 1));
  }

  /** `(v)` with v a declared name: ARG_LIST[v]. */
  lemma {:induction false} VariableArgument(toks: seq<Token>, st: PState)
    requires Ready(toks, st) && st.pos + 3 < |toks|
    requires toks[st.pos].kind == LParen && toks[st.pos + 1].kind == Identifier && toks[st.pos + 2].kind == RParen
    requires Resolve(Scopes(st), toks[st.pos + 1].lexeme).Some?
    ensures ArgumentList(toks, st) == Ok((ArgsOf(Name(toks[st.pos + 1].lexeme)), Ahead(st, 3)))
  {
    VariableExpression(toks, Ahead(st, 1));
    OneArgument(toks, st, Name(toks[st.pos + 1].lexeme), Ahead(st, 2));
  }

  /** `(n)` with n an integer literal: ARG_LIST[n]. */
  lemma {:induction false} IntegerArgument(toks: seq<Token>, st: PState)
    requires Ready(toks, st) && st.pos + 3 < |toks|
    requires toks[st.pos].kind == LParen && toks[st.pos + 1].kind == IntegerLiteral && toks[st.pos + 2].kind == RParen
    ensures ArgumentList(toks, st) == Ok((ArgsOf(Number(toks[st.pos + 1].lexeme)), st.(pos := st.pos + 3)))
  {
    var n := Number(toks[st.pos + 1].lexeme);
    IntegerParses(toks, st.(pos := st.pos + 1));
    LoneFactor(toks, st.(pos := st.pos + 1), n, st.(pos := st.pos + 2));
    OneArgument(toks, st, n, st.(pos := st.pos + 2));
  }

  /** `f(n)` with f callable and n an integer literal: the factor
      FUNC_CALL(f)[ARG_LIST[n]]. */
  lemma {:induction false} CallIntegerFactor(toks: seq<Token>, st: PState)
    requires Ready(toks, st) && st.pos + 4 < |toks|
    requires toks[st.pos].kind == Identifier && toks[st.pos + 1].kind == LParen && toks[st.pos + 2].kind == IntegerLiteral
    requires toks[st.pos + 3].kind == RParen
    requires Callable(Resolve(Scopes(st), toks[st.pos].lexeme))
    ensures Factor(toks, st) == Ok((CallOf(toks[st.pos].lexeme, Number(toks[st.pos + 2].lexeme)), st.(pos := st.pos + 4)))
  {
    IntegerArgument(toks, st.(pos := st.pos + 1));
    CallBuilds(toks, st, ArgsOf(Number(toks[st.pos + 2].lexeme)), st.(pos := st.pos + 4));
    assert FactorStart(toks, st.pos) == CallFactor;
  }

  // ---------------------------------------------------------------------------
  // begin y = 2; end

  /** An assignment to a name no scope holds fails, naming it. */
  lemma {:induction false} UndeclaredRejected(toks: seq<Token>)
    requires |toks| == 7
    requires toks[0] == Token(Begin, "begin", 1) && toks[1] == Token(Identifier, "y", 1) && toks[2] == Token(Assign, "=", 1)
    requires toks[3] == Token(IntegerLiteral, "2", 1) && toks[4] == Token(Semicolon, ";", 1) && toks[5] == Token(End, "end", 1)
    requires toks[6] == Token(Eof, "EOF", 1)
    ensures ParseProgram(toks) == Err(UndeclaredAssignment("y"))
  {
    var s1 := Initial().(pos := 1);
    assert StatementStart(toks, 1) == AssignmentForm;
    EmptyTableWellFormed();
    AssignmentResolution(toks, s1);
    StatementFails(toks, s1, CreateNode(BlockNode, None));
    BlockFails(toks, Initial());
    MainProgramFails(toks);
  }

  // ---------------------------------------------------------------------------
  // begin int x = 5; print(x); end

  /** `int x = n;` with x new to the current scope and n an integer
      literal: x is declared (state `d`) and the statement is
      DECL_ASSIGN[DECLARATION(x), ASSIGNMENT(x)[n]]. */
  lemma {:induction false} IntegerDeclarationParses(toks: seq<Token>, st: PState, d: PState)
    requires Ready(toks, st) && st.pos + 5 < |toks|
    requires toks[st.pos].kind == Int && toks[st.pos + 1].kind == Identifier && toks[st.pos + 2].kind == Assign
    requires toks[st.pos + 3].kind == IntegerLiteral && toks[st.pos + 4].kind == Semicolon
    requires DeclareNext(st.(pos := st.pos + 2), toks[st.pos + 1].lexeme, VariableKind, IntegerType, toks[st.pos + 1].line) == Ok(d)
    ensures Statement(toks, st) == Ok((DeclAssign(toks[st.pos + 1].lexeme, Number(toks[st.pos + 3].lexeme)), d.(pos := st.pos + 5)))
  {
    var n := Number(toks[st.pos + 3].lexeme);
    IntegerParses(toks, d.(pos := st.pos + 3));
    LoneFactor(toks, d.(pos := st.pos + 3), n, d.(pos := st.pos + 4));
    InitialisedDeclarationParses(toks, st, d, n, d.(pos := st.pos + 4));
  }

  /** The body of `begin int x = n; print(x); end`: both statements, in
      order, with x declared in the global scope at address 0. */
  lemma {:induction false} DeclareThenPrintBlock(toks: seq<Token>, d: PState)
    requires |toks| == 13 && toks[12].kind == Eof
    requires toks[1].kind == Int && toks[2].kind == Identifier && toks[3].kind == Assign && toks[4].kind == IntegerLiteral
    requires toks[5].kind == Semicolon && toks[6].kind == Print && toks[7].kind == LParen && toks[8].kind == Identifier
    requires toks[9].kind == RParen && toks[10].kind == Semicolon && toks[11].kind == End
    requires toks[8].lexeme == toks[2].lexeme
    requires DeclareNext(Initial().(pos := 3), toks[2].lexeme, VariableKind, IntegerType, toks[2].line) == Ok(d)
    ensures var decl := DeclAssign(toks[2].lexeme, Number(toks[4].lexeme));
      BlockItems(toks, Initial().(pos := 1), CreateNode(BlockNode, None)) ==
        Ok((WithChild(BlockOf(decl), PrintOf(Name(toks[2].lexeme))), d.(pos := 11)))
  {
    var decl := DeclAssign(toks[2].lexeme, Number(toks[4].lexeme));
    IntegerDeclarationParses(toks, Initial().(pos := 1), d);
    StatementThen(toks, Initial().(pos := 1), CreateNode(BlockNode, None), decl, d.(pos := 6));
    assert Local(Scopes(d.(pos := 6))[0], toks[2].lexeme).Some?;
    VariableArgument(toks, d.(pos := 7));
    PrintParses(toks, d.(pos := 6), ArgsOf(Name(toks[2].lexeme)), d.(pos := 10));
    var output := PrintOf(Name(toks[2].lexeme));
    LastStatement(toks, d.(pos := 6), BlockOf(decl), output, d.(pos := 11));
  }

  /** The main block `begin int x = n; print(x); end`: the block of both
      statements, ending after `end`. */
  lemma {:induction false} DeclareThenPrintMain(toks: seq<Token>, d: PState)
    requires |toks| == 13 && toks[12].kind == Eof && toks[0].kind == Begin
    requires toks[1].kind == Int && toks[2].kind == Identifier && toks[3].kind == Assign && toks[4].kind == IntegerLiteral
    requires toks[5].kind == Semicolon && toks[6].kind == Print && toks[7].kind == LParen && toks[8].kind == Identifier
    requires toks[9].kind == RParen && toks[10].kind == Semicolon && toks[11].kind == End
    requires toks[8].lexeme == toks[2].lexeme
    requires DeclareNext(Initial().(pos := 3), toks[2].lexeme, VariableKind, IntegerType, toks[2].line) == Ok(d)
    ensures var x := toks[2].lexeme;
      ProgramBlock(toks, Initial()) == Ok((WithChild(BlockOf(DeclAssign(x, Number(toks[4].lexeme))), PrintOf(Name(x))), d.(pos := 12)))
  {
    DeclareThenPrintBlock(toks, d);
    var x := toks[2].lexeme;
    BlockParses(toks, Initial(), WithChild(BlockOf(DeclAssign(x, Number(toks[4].lexeme))), PrintOf(Name(x))), d.(pos := 11));
  }

  /** `begin int x = n; print(x); end`: PROGRAM over the block of both
      statements, x then an integer variable at address 0 of the global
      scope. */
  lemma {:induction false} DeclareThenPrintProgram(toks: seq<Token>) returns (s: PState)
    requires |toks| == 13 && toks[12].kind == Eof && toks[0].kind == Begin
    requires toks[1].kind == Int && toks[2].kind == Identifier && toks[3].kind == Assign && toks[4].kind == IntegerLiteral
    requires toks[5].kind == Semicolon && toks[6].kind == Print && toks[7].kind == LParen && toks[8].kind == Identifier
    requires toks[9].kind == RParen && toks[10].kind == Semicolon && toks[11].kind == End
    requires toks[8].lexeme == toks[2].lexeme
    ensures var x := toks[2].lexeme;
      var body := WithChild(BlockOf(DeclAssign(x, Number(toks[4].lexeme))), PrintOf(Name(x)));
      ParseProgram(toks) == Ok((WithChild(CreateNode(ProgramNode, None), body), s))
    ensures Local(s.current, toks[2].lexeme) == Some(Symbol(toks[2].lexeme, VariableKind, IntegerType, toks[2].line, 0))
  {
    EmptyTableWellFormed();
    var x := toks[2].lexeme;
    var d := DeclareNext(Initial().(pos := 3), x, VariableKind, IntegerType, toks[2].line).value;
    DeclareThenPrintMain(toks, d);
    var body := WithChild(BlockOf(DeclAssign(x, Number(toks[4].lexeme))), PrintOf(Name(x)));
    s := d.(pos := 12);
    MainProgram(toks, body, s);
  }

  /** The program parses to PROGRAM[BLOCK[DECL_ASSIGN[DECLARATION x,
      ASSIGNMENT x[5]], PRINT[ARG_LIST[x]]]], and the global scope then
      holds x as an integer variable at address 0. */
  lemma {:induction false} MainOnlyParses(toks: seq<Token>) returns (s: PState)
    requires |toks| == 13
    requires toks[0] == Token(Begin, "begin", 1) && toks[1] == Token(Int, "int", 1) && toks[2] == Token(Identifier, "x", 1)
    requires toks[3] == Token(Assign, "=", 1) && toks[4] == Token(IntegerLiteral, "5", 1) && toks[5] == Token(Semicolon, ";", 1)
    requires toks[6] == Token(Print, "print", 1) && toks[7] == Token(LParen, "(", 1) && toks[8] == Token(Identifier, "x", 1)
    requires toks[9] == Token(RParen, ")", 1) && toks[10] == Token(Semicolon, ";", 1) && toks[11] == Token(End, "end", 1)
    requires toks[12] == Token(Eof, "EOF", 1)
    ensures ParseProgram(toks) ==
      Ok((WithChild(CreateNode(ProgramNode, None), WithChild(BlockOf(DeclAssign("x", Number("5"))), PrintOf(Name("x")))), s))
    ensures Local(s.current, "x") == Some(Symbol("x", VariableKind, IntegerType, 1, 0))
  {
    s := DeclareThenPrintProgram(toks);
  }

  // ---------------------------------------------------------------------------
  // function int f(int a) begin return a; end begin int x = f(3); end

  /** `int a` and no comma after it: one PARAM node, with a declared as a
      parameter at the next address (state `d`). */
  lemma {:induction false} OneParameter(toks: seq<Token>, st: PState, d: PState)
    requires Ready(toks, st) && st.pos + 2 < |toks|
    requires toks[st.pos].kind == Int && toks[st.pos + 1].kind == Identifier && toks[st.pos + 2].kind != Comma
    requires DeclareNext(st.(pos := st.pos + 2), toks[st.pos + 1].lexeme, ParameterKind, IntegerType, toks[st.pos + 1].line) == Ok(d)
    ensures ParamItems(toks, st, CreateNode(ParamListNode, None)) == Ok((ParamsOf(toks[st.pos + 1].lexeme), d))
  {
    assert ParseType(toks, st) == Ok((IntegerType, st.(pos := st.pos + 1)));
  }

  /** `(`, parameters that leave the cursor on `)`, `)`. */
  lemma {:induction false} ParametersParse(toks: seq<Token>, st: PState, params: Node, s: PState)
    requires Ready(toks, st) && Check(toks, st, LParen) && !Check(toks, Advance(toks, st), RParen)
    requires ParamItems(toks, Advance(toks, st), CreateNode(ParamListNode, None)) == Ok((params, s)) && Check(toks, s, RParen)
    ensures ParameterList(toks, st) == Ok((params, Advance(toks, s)))
  {
  }

  /** `(int a)`: PARAM_LIST[a], a declared as in OneParameter. */
  lemma {:induction false} OneParameterList(toks: seq<Token>, st: PState, d: PState)
    requires Ready(toks, st) && st.pos + 4 < |toks|
    requires toks[st.pos].kind == LParen && toks[st.pos + 1].kind == Int && toks[st.pos + 2].kind == Identifier
    requires toks[st.pos + 3].kind == RParen
    requires DeclareNext(st.(pos := st.pos + 3), toks[st.pos + 2].lexeme, ParameterKind, IntegerType, toks[st.pos + 2].line) == Ok(d)
    ensures ParameterList(toks, st) == Ok((ParamsOf(toks[st.pos + 2].lexeme), d.(pos := d.pos + 1)))
  {
    OneParameter(toks, st.(pos := st.pos + 1), d);
    ParametersParse(toks, st, ParamsOf(toks[st.pos + 2].lexeme), d);
  }

  /** `return v;` with v a declared name: RETURN[v]. */
  lemma {:induction false} ReturnVariableParses(toks: seq<Token>, st: PState)
    requires Ready(toks, st) && st.pos + 3 < |toks|
    requires toks[st.pos].kind == Return && toks[st.pos + 1].kind == Identifier && toks[st.pos + 2].kind == Semicolon
    requires Resolve(Scopes(st), toks[st.pos + 1].lexeme).Some?
    ensures Statement(toks, st) == Ok((ReturnOf(Name(toks[st.pos + 1].lexeme)), st.(pos := st.pos + 3)))
  {
    VariableExpression(toks, st.(pos := st.pos + 1));
    ReturnParses(toks, st, Name(toks[st.pos + 1].lexeme), st.(pos := st.pos + 2));
  }

  /** The statements of `begin return v; end`: one RETURN[v]. */
  lemma {:induction false} ReturnBlockItems(toks: seq<Token>, st: PState)
    requires Ready(toks, st) && st.pos + 4 < |toks|
    requires toks[st.pos].kind == Return && toks[st.pos + 1].kind == Identifier
    requires toks[st.pos + 2].kind == Semicolon && toks[st.pos + 3].kind == End
    requires Resolve(Scopes(st), toks[st.pos + 1].lexeme).Some?
    ensures BlockItems(toks, st, CreateNode(BlockNode, None)) == Ok((BlockOf(ReturnOf(Name(toks[st.pos + 1].lexeme))), st.(pos := st.pos + 3)))
  {
    ReturnVariableParses(toks, st);
    LastStatement(toks, st, CreateNode(BlockNode, None), ReturnOf(Name(toks[st.pos + 1].lexeme)), st.(pos := st.pos + 3));
  }

  /** `begin return v; end` with v a declared name: BLOCK[RETURN[v]]. */
  lemma {:induction false} ReturnBlockParses(toks: seq<Token>, st: PState)
    requires Ready(toks, st) && st.pos + 5 < |toks|
    requires toks[st.pos].kind == Begin && toks[st.pos + 1].kind == Return && toks[st.pos + 2].kind == Identifier
    requires toks[st.pos + 3].kind == Semicolon && toks[st.pos + 4].kind == End
    requires Resolve(Scopes(st), toks[st.pos + 2].lexeme).Some?
    ensures ProgramBlock(toks, st) == Ok((BlockOf(ReturnOf(Name(toks[st.pos + 2].lexeme))), st.(pos := st.pos + 5)))
  {
    ReturnBlockItems(toks, st.(pos := st.pos + 1));
    BlockParses(toks, st, BlockOf(ReturnOf(Name(toks[st.pos + 2].lexeme))), st.(pos := st.pos + 4));
  }

  /** The first three tokens of a function declaration: its type and name
      give the function's symbol, at address 0, and the rest is read in
      the function's scope. */
  lemma {:induction false} FunctionHeader(toks: seq<Token>, st: PState)
    requires Ready(toks, st) && st.pos + 3 < |toks|
    requires toks[st.pos].kind == Function && toks[st.pos + 1].kind == Int && toks[st.pos + 2].kind == Identifier
    ensures FunctionDeclaration(toks, st) ==
      FunctionScope(toks, st.(pos := st.pos + 3), Symbol(toks[st.pos + 2].lexeme, FunctionKind, IntegerType, toks[st.pos + 2].line, 0))
  {
    assert ParseType(toks, st.(pos := st.pos + 1)) == Ok((IntegerType, st.(pos := st.pos + 2)));
  }

  /** Once the function's symbol is in the current scope (`table`), its
      parameters and body are read in a fresh scope with addresses from 1,
      and the enclosing scope is current again afterwards. */
  lemma {:induction false} FunctionScopeParses(toks: seq<Token>, st: PState, func: Symbol, table: Table, node: Node, s: PState)
    requires Ready(toks, st) && Declare(st.current, func) == Ok(table)
    requires FunctionParts(toks, PState(st.pos, EmptyTable(), [table] + st.outer, 1), CreateNode(FuncDeclNode, Some(func.name))) == Ok((node, s))
    ensures FunctionScope(toks, st, func) == Ok((node, PState(s.pos, table, st.outer, s.next)))
  {
  }

  /** `function int f` and then the rest in f's own scope: f goes into the
      current scope at address 0 (giving `table`), the parameters and body
      are read in a fresh scope with addresses from 1, and the enclosing
      scope is current again afterwards. */
  lemma {:induction false} FunctionDeclarationParses(toks: seq<Token>, st: PState, table: Table, node: Node, s: PState)
    requires Ready(toks, st) && st.pos + 3 < |toks|
    requires toks[st.pos].kind == Function && toks[st.pos + 1].kind == Int && toks[st.pos + 2].kind == Identifier
    requires Declare(st.current, Symbol(toks[st.pos + 2].lexeme, FunctionKind, IntegerType, toks[st.pos + 2].line, 0)) == Ok(table)
    requires FunctionParts(toks, PState(st.pos + 3, EmptyTable(), [table] + st.outer, 1),
                           CreateNode(FuncDeclNode, Some(toks[st.pos + 2].lexeme))) == Ok((node, s))
    ensures FunctionDeclaration(toks, st) == Ok((node, PState(s.pos, table, st.outer, s.next)))
  {
    FunctionHeader(toks, st);
    FunctionScopeParses(toks, st.(pos := st.pos + 3), Symbol(toks[st.pos + 2].lexeme, FunctionKind, IntegerType, toks[st.pos + 2].line, 0), table, node, s);
  }

  /** `(int a) begin return a; end` in the scope of function f: the
      parameter list and the body, the FUNC_DECL node owning the scope
      where a is declared (state `d`). */
  lemma {:induction false} IdentityParts(toks: seq<Token>, st: PState, d: PState, f: string)
    requires Ready(toks, st) && st.pos + 9 < |toks|
    requires toks[st.pos].kind == LParen && toks[st.pos + 1].kind == Int && toks[st.pos + 2].kind == Identifier
    requires toks[st.pos + 3].kind == RParen && toks[st.pos + 4].kind == Begin && toks[st.pos + 5].kind == Return
    requires toks[st.pos + 6].kind == Identifier && toks[st.pos + 7].kind == Semicolon && toks[st.pos + 8].kind == End
    requires toks[st.pos + 6].lexeme == toks[st.pos + 2].lexeme
    requires DeclareNext(st.(pos := st.pos + 3), toks[st.pos + 2].lexeme, ParameterKind, IntegerType, toks[st.pos + 2].line) == Ok(d)
    ensures FunctionParts(toks, st, CreateNode(FuncDeclNode, Some(f))) ==
      Ok((Identity(f, toks[st.pos + 2].lexeme, d.current), d.(pos := d.pos + 6)))
  {
    OneParameterList(toks, st, d);
    assert Local(Scopes(d.(pos := d.pos + 1))[0], toks[st.pos + 2].lexeme).Some?;
    ReturnBlockParses(toks, d.(pos := d.pos + 1));
  }

  /** The first name declared into an empty scope is the only one it holds. */
  lemma {:induction false} FirstDeclaration(sym: Symbol) returns (table: Table)
    ensures Declare(EmptyTable(), sym) == Ok(table)
    ensures Local(table, sym.name) == Some(sym)
    ensures forall n :: n != sym.name ==> Local(table, n) == None
  {
    EmptyTableWellFormed();
    InsertFailsIffDeclared(EmptyTable(), sym);
    table := Declare(EmptyTable(), sym).value;
    forall n | n != sym.name
      ensures Local(table, n) == None
    {
      InsertThenLocal(EmptyTable(), sym, n);
    }
  }

  /** `function int f(int a) begin return a; end` at `st`, f new to the
      current scope (giving `table`) and a declared in f's own scope
      (state `d`): FUNC_DECL(f)[PARAM_LIST[a], BLOCK[RETURN[a]]], owning the
      scope of `d`, and the enclosing scope is current again. */
  lemma {:induction false} IdentityFunctionAt(toks: seq<Token>, st: PState, table: Table, d: PState)
    requires Ready(toks, st) && st.pos + 12 < |toks|
    requires toks[st.pos].kind == Function && toks[st.pos + 1].kind == Int && toks[st.pos + 2].kind == Identifier
    requires toks[st.pos + 3].kind == LParen && toks[st.pos + 4].kind == Int && toks[st.pos + 5].kind == Identifier
    requires toks[st.pos + 6].kind == RParen && toks[st.pos + 7].kind == Begin && toks[st.pos + 8].kind == Return
    requires toks[st.pos + 9].kind == Identifier && toks[st.pos + 10].kind == Semicolon && toks[st.pos + 11].kind == End
    requires toks[st.pos + 9].lexeme == toks[st.pos + 5].lexeme
    requires Declare(st.current, Symbol(toks[st.pos + 2].lexeme, FunctionKind, IntegerType, toks[st.pos + 2].line, 0)) == Ok(table)
    requires DeclareNext(PState(st.pos + 6, EmptyTable(), [table] + st.outer, 1), toks[st.pos + 5].lexeme, ParameterKind, IntegerType, toks[st.pos + 5].line) == Ok(d)
    ensures FunctionDeclaration(toks, st) ==
      Ok((Identity(toks[st.pos + 2].lexeme, toks[st.pos + 5].lexeme, d.current), PState(st.pos + 12, table, st.outer, d.next)))
  {
    var inner := PState(st.pos + 3, EmptyTable(), [table] + st.outer, 1);
    IdentityParts(toks, inner, d, toks[st.pos + 2].lexeme);
    FunctionDeclarationParses(toks, st, table, Identity(toks[st.pos + 2].lexeme, toks[st.pos + 5].lexeme, d.current), d.(pos := d.pos + 6));
  }

  /** `function int f(int a) begin return a; end` from the start of the
      program: FUNC_DECL(f)[PARAM_LIST[a], BLOCK[RETURN[a]]], owning a scope
      that holds a as a parameter at address 1; the global scope then holds
      f as a function at address 0 and nothing else, and address 2 is next. */
  lemma {:induction false} IdentityFunctionParses(toks: seq<Token>) returns (scope: Table, fs: PState)
    requires 0 < |toks| && toks[|toks| - 1].kind == Eof && 12 < |toks|
    requires toks[0].kind == Function && toks[1].kind == Int && toks[2].kind == Identifier && toks[3].kind == LParen
    requires toks[4].kind == Int && toks[5].kind == Identifier && toks[6].kind == RParen && toks[7].kind == Begin
    requires toks[8].kind == Return && toks[9].kind == Identifier && toks[10].kind == Semicolon && toks[11].kind == End
    requires toks[9].lexeme == toks[5].lexeme
    ensures FunctionDeclaration(toks, Initial()) == Ok((Identity(toks[2].lexeme, toks[5].lexeme, scope), fs))
    ensures Local(scope, toks[5].lexeme) == Some(Symbol(toks[5].lexeme, ParameterKind, IntegerType, toks[5].line, 1))
    ensures fs.pos == 12 && fs.outer == [] && fs.next == 2
    ensures var f := toks[2].lexeme;
      && Local(fs.current, f) == Some(Symbol(f, FunctionKind, IntegerType, toks[2].line, 0))
      && forall n :: n != f ==> Local(fs.current, n) == None
  {
    var st := Initial();
    var table := FirstDeclaration(Symbol(toks[2].lexeme, FunctionKind, IntegerType, toks[2].line, 0));
    EmptyTableWellFormed();
    var d := DeclareNext(PState(st.pos + 6, EmptyTable(), [table] + st.outer, 1), toks[5].lexeme, ParameterKind, IntegerType, toks[5].line).value;
    IdentityFunctionAt(toks, st, table, d);
    scope := d.current;
    fs := PState(12, table, [], d.next);
  }

  /** `int x = f(n);` with x new to the current scope (declared in state
      `d`), f callable once x is declared, and n an integer literal:
      DECL_ASSIGN[DECLARATION(x), ASSIGNMENT(x)[FUNC_CALL(f)[ARG_LIST[n]]]]. */
  lemma {:induction false} DeclareCallParses(toks: seq<Token>, st: PState, d: PState)
    requires Ready(toks, st) && st.pos + 8 < |toks|
    requires toks[st.pos].kind == Int && toks[st.pos + 1].kind == Identifier && toks[st.pos + 2].kind == Assign
    requires toks[st.pos + 3].kind == Identifier && toks[st.pos + 4].kind == LParen && toks[st.pos + 5].kind == IntegerLiteral
    requires toks[st.pos + 6].kind == RParen && toks[st.pos + 7].kind == Semicolon
    requires DeclareNext(st.(pos := st.pos + 2), toks[st.pos + 1].lexeme, VariableKind, IntegerType, toks[st.pos + 1].line) == Ok(d)
    requires Callable(Resolve(Scopes(d), toks[st.pos + 3].lexeme))
    ensures Statement(toks, st) ==
      Ok((DeclAssign(toks[st.pos + 1].lexeme, CallOf(toks[st.pos + 3].lexeme, Number(toks[st.pos + 5].lexeme))), d.(pos := st.pos + 8)))
  {
    var call := CallOf(toks[st.pos + 3].lexeme, Number(toks[st.pos + 5].lexeme));
    CallIntegerFactor(toks, d.(pos := st.pos + 3));
    LoneFactor(toks, d.(pos := st.pos + 3), call, d.(pos := st.pos + 7));
    InitialisedDeclarationParses(toks, st, d, call, d.(pos := st.pos + 7));
  }

  /** The main block `begin int x = f(n); end` after the function: x goes
      into the global scope (state `d`), and the block is
      BLOCK[DECL_ASSIGN[DECLARATION(x), ASSIGNMENT(x)[FUNC_CALL(f)[ARG_LIST[n]]]]]. */
  lemma {:induction false} CallingMain(toks: seq<Token>, fs: PState, d: PState)
    requires |toks| == 23 && toks[22].kind == Eof && fs.pos == 12
    requires toks[12].kind == Begin && toks[13].kind == Int && toks[14].kind == Identifier && toks[15].kind == Assign
    requires toks[16].kind == Identifier && toks[17].kind == LParen && toks[18].kind == IntegerLiteral
    requires toks[19].kind == RParen && toks[20].kind == Semicolon && toks[21].kind == End
    requires DeclareNext(fs.(pos := 15), toks[14].lexeme, VariableKind, IntegerType, toks[14].line) == Ok(d)
    requires Callable(Resolve(Scopes(d), toks[16].lexeme))
    ensures ProgramBlock(toks, fs) == Ok((BlockOf(DeclAssign(toks[14].lexeme, CallOf(toks[16].lexeme, Number(toks[18].lexeme)))), d.(pos := 22)))
  {
    var decl := DeclAssign(toks[14].lexeme, CallOf(toks[16].lexeme, Number(toks[18].lexeme)));
    DeclareCallParses(toks, fs.(pos := 13), d);
    LastStatement(toks, fs.(pos := 13), CreateNode(BlockNode, None), decl, d.(pos := 21));
    BlockParses(toks, fs, BlockOf(decl), d.(pos := 21));
  }

  /** `function int f(int a) begin return a; end begin int x = f(n); end`
      with x other than f: PROGRAM over the function and the main block;
      f's own scope holds a as a parameter at address 1, and the global
      scope holds f as a function at address 0 and x as a variable at
      address 2. */
  lemma {:induction false} IdentityThenCallProgram(toks: seq<Token>) returns (scope: Table, s: PState)
    requires |toks| == 23 && toks[22].kind == Eof
    requires toks[0].kind == Function && toks[1].kind == Int && toks[2].kind == Identifier && toks[3].kind == LParen
    requires toks[4].kind == Int && toks[5].kind == Identifier && toks[6].kind == RParen && toks[7].kind == Begin
    requires toks[8].kind == Return && toks[9].kind == Identifier && toks[10].kind == Semicolon && toks[11].kind == End
    requires toks[12].kind == Begin && toks[13].kind == Int && toks[14].kind == Identifier && toks[15].kind == Assign
    requires toks[16].kind == Identifier && toks[17].kind == LParen && toks[18].kind == IntegerLiteral
    requires toks[19].kind == RParen && toks[20].kind == Semicolon && toks[21].kind == End
    requires toks[9].lexeme == toks[5].lexeme && toks[16].lexeme == toks[2].lexeme && toks[14].lexeme != toks[2].lexeme
    ensures var f := toks[2].lexeme;
      var main := BlockOf(DeclAssign(toks[14].lexeme, CallOf(f, Number(toks[18].lexeme))));
      ParseProgram(toks) == Ok((WithChild(WithChild(CreateNode(ProgramNode, None), Identity(f, toks[5].lexeme, scope)), main), s))
    ensures Local(scope, toks[5].lexeme) == Some(Symbol(toks[5].lexeme, ParameterKind, IntegerType, toks[5].line, 1))
    ensures Local(s.current, toks[2].lexeme) == Some(Symbol(toks[2].lexeme, FunctionKind, IntegerType, toks[2].line, 0))
    ensures Local(s.current, toks[14].lexeme) == Some(Symbol(toks[14].lexeme, VariableKind, IntegerType, toks[14].line, 2))
  {
    var fs;
    scope, fs := IdentityFunctionParses(toks);
    var f, x := toks[2].lexeme, toks[14].lexeme;
    var d := DeclareNext(fs.(pos := 15), x, VariableKind, IntegerType, toks[14].line).value;
    DeclareNextKeeps(fs.(pos := 15), x, VariableKind, IntegerType, toks[14].line, f);
    assert Resolve(Scopes(d), f) == Local(d.current, f);
    CallingMain(toks, fs, d);
    s := d.(pos := 22);
    FunctionThenMain(toks, Identity(f, toks[5].lexeme, scope), fs, BlockOf(DeclAssign(x, CallOf(f, Number(toks[18].lexeme)))), s);
  }

  /** The program parses to PROGRAM[FUNC_DECL f[PARAM_LIST[a],
      BLOCK[RETURN[a]]], BLOCK[DECL_ASSIGN[DECLARATION x, ASSIGNMENT
      x[FUNC_CALL f[ARG_LIST[3]]]]]]; f's scope holds a as a parameter at
      address 1, the global scope f as a function at address 0 and x as a
      variable at address 2. */
  lemma {:induction false} WithFunctionParses(toks: seq<Token>) returns (scope: Table, s: PState)
    requires |toks| == 23
    requires toks[0] == Token(Function, "function", 1) && toks[1] == Token(Int, "int", 1) && toks[2] == Token(Identifier, "f", 1)
    requires toks[3] == Token(LParen, "(", 1) && toks[4] == Token(Int, "int", 1) && toks[5] == Token(Identifier, "a", 1)
    requires toks[6] == Token(RParen, ")", 1) && toks[7] == Token(Begin, "begin", 1) && toks[8] == Token(Return, "return", 1)
    requires toks[9] == Token(Identifier, "a", 1) && toks[10] == Token(Semicolon, ";", 1) && toks[11] == Token(End, "end", 1)
    requires toks[12] == Token(Begin, "begin", 1) && toks[13] == Token(Int, "int", 1) && toks[14] == Token(Identifier, "x", 1)
    requires toks[15] == Token(Assign, "=", 1) && toks[16] == Token(Identifier, "f", 1) && toks[17] == Token(LParen, "(", 1)
    requires toks[18] == Token(IntegerLiteral, "3", 1) && toks[19] == Token(RParen, ")", 1) && toks[20] == Token(Semicolon, ";", 1)
    requires toks[21] == Token(End, "end", 1) && toks[22] == Token(Eof, "EOF", 1)
    ensures ParseProgram(toks) ==
      Ok((WithChild(WithChild(CreateNode(ProgramNode, None), Identity("f", "a", scope)), BlockOf(DeclAssign("x", CallOf("f", Number("3"))))), s))
    ensures Local(scope, "a") == Some(Symbol("a", ParameterKind, IntegerType, 1, 1))
    ensures Local(s.current, "f") == Some(Symbol("f", FunctionKind, IntegerType, 1, 0))
    ensures Local(s.current, "x") == Some(Symbol("x", VariableKind, IntegerType, 1, 2))
  {
    scope, s := IdentityThenCallProgram(toks);
  }
}
