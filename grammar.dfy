/** The reference semantics of the recursive-descent parser and resolver
    (src/parser.c), as functions over an immutable token sequence and a
    parser state value.

    Each function is one recognizer of the source. It either yields the node
    it builds and the state after it, or the error that makes the source print
    a message and exit. The scope chain is a sequence of tables, nearest
    first. The imperative parser in module Parser is proved to compute
    exactly these results. */
module Grammar {
  import opened Wrappers
  import opened Tokens
  import opened SymTab
  import opened Ast

  /** The reasons the front end stops, one per call to exit in the parser and
      in scope_insert. Lines are kept where the message prints one. */
  datatype ParseError =
    | Expected(kind: TokenKind, found: Token)     // consume: wrong token, printed with its line and lexeme
    | ExpectedType                                // parse_Type: neither int nor float
    | NotCallable(name: string)                   // a call target that is not a function or procedure
    | UndeclaredVariable(name: string)            // an identifier in an expression that does not resolve
    | UnexpectedInExpression                      // a token that cannot start a factor
    | InvalidStatement(line: int)                 // a token that cannot start a statement
    | UndeclaredAssignment(name: string)          // an assignment target that does not resolve
    | Redeclared(name: string, line: int)         // scope_insert: the name is already in the current scope
    | ExpectedTopLevel                            // neither `function` nor `begin` at the top level
    | TrailingTokens(lexeme: string)              // tokens left after the program

  /** ParserState without the token array: the cursor, the current scope,
      the scopes enclosing it (innermost first) and the next free address. */
  datatype PState = PState(pos: nat, current: Table, outer: seq<Table>, next: int)

  /** The scope chain a lookup walks: the current scope, then its parents. */
  function Scopes(st: PState): (chain: seq<Table>)
    ensures |chain| == |st.outer| + 1 && chain[0] == st.current && chain[1..] == st.outer
  {
    [st.current] + st.outer
  }

  /** What a recognizer returns: its value and the state after it, or the
      error that stops the parse. */
  type Parsed<T> = Result<(T, PState), ParseError>

  /** The state every recognizer runs in: a token stream ending in the end
      marker, and the cursor on one of its tokens. */
  predicate Ready(toks: seq<Token>, st: PState) {
    0 < |toks| && toks[|toks| - 1].kind == Eof && st.pos < |toks|
  }

  /** The state the driver starts from: the first token, one empty global
      scope, and address 0. */
  function Initial(): (st: PState)
    ensures st.pos == 0 && st.current == EmptyTable() && st.outer == [] && st.next == 0
  {
    PState(0, EmptyTable(), [], 0)
  }

  // ---------------------------------------------------------------------------
  // What a recognizer may change

  /** A successful recognizer consumed at least one token (or, when `strict`
      is false, possibly none), kept the cursor on a token, opened no scope and
      changed no scope but the current one. */
  ghost predicate Steps<T>(toks: seq<Token>, st: PState, r: Parsed<T>, strict: bool) {
    r.Ok? ==>
      && r.value.1.pos < |toks|
      && (if strict then st.pos < r.value.1.pos else st.pos <= r.value.1.pos)
      && r.value.1.outer == st.outer
  }

  /** A successful recognizer declared nothing: scopes and the next address
      are as they were. */
  ghost predicate DeclaresNothing<T>(st: PState, r: Parsed<T>) {
    r.Ok? ==> r.value.1.current == st.current && r.value.1.next == st.next
  }

  /** A successful recognizer never gave an address back: the next free
      address only grows. */
  ghost predicate Allocates<T>(st: PState, r: Parsed<T>) {
    r.Ok? ==> st.next <= r.value.1.next
  }

  // ---------------------------------------------------------------------------
  // Token access

  /** peek: the token under the cursor. */
  function Peek(toks: seq<Token>, st: PState): Token
    requires st.pos < |toks|
  {
    toks[st.pos]
  }

  /** check: is the token under the cursor of this kind? */
  predicate Check(toks: seq<Token>, st: PState, kind: TokenKind)
    requires st.pos < |toks|
  {
    toks[st.pos].kind == kind
  }

  /** advance: move past the current token unless the cursor is already past
      the last one. Callers never advance past the end marker. */
  function Advance(toks: seq<Token>, st: PState): (r: PState)
    requires Ready(toks, st) && toks[st.pos].kind != Eof
    ensures r == st.(pos := st.pos + 1) && r.pos < |toks|
  {
    if st.pos < |toks| then st.(pos := st.pos + 1) else st
  }

  /** consume: take the current token if it has the expected kind, otherwise
      stop with the token found. No caller expects the end marker, so the
      cursor never moves past it. */
  function Consume(toks: seq<Token>, st: PState, kind: TokenKind): (r: Parsed<Token>)
    requires Ready(toks, st) && kind != Eof
    ensures r.Ok? <==> Check(toks, st, kind)
    ensures r.Ok? ==> r.value.0 == toks[st.pos] && r.value.1 == st.(pos := st.pos + 1) && r.value.1.pos < |toks|
    ensures r.Err? ==> r.error == Expected(kind, toks[st.pos])
  {
    if Check(toks, st, kind) then Ok((Peek(toks, st), Advance(toks, st)))
    else Err(Expected(kind, Peek(toks, st)))
  }

  /** parse_Type: `int` or `float`. */
  function ParseType(toks: seq<Token>, st: PState): (r: Parsed<DataType>)
    requires Ready(toks, st)
    ensures Steps(toks, st, r, true) && DeclaresNothing(st, r)
    ensures r.Ok? <==> Check(toks, st, Int) || Check(toks, st, Float)
    ensures r.Ok? ==> r.value.0 == (if Check(toks, st, Int) then IntegerType else FloatType)
  {
    if Check(toks, st, Int) then Ok((IntegerType, Advance(toks, st)))
    else if Check(toks, st, Float) then Ok((FloatType, Advance(toks, st)))
    else Err(ExpectedType)
  }

  /** scope_insert into the table of the current scope, its error mapped to
      the parse error. */
  function Declare(current: Table, sym: Symbol): (r: Result<Table, ParseError>)
    ensures r.Ok? <==> Local(current, sym.name).None?
    ensures r.Ok? ==> Local(r.value, sym.name) == Some(sym)
    ensures r.Err? ==> r.error == Redeclared(sym.name, sym.line)
  {
    InsertFailsIffDeclared(current, sym);
    match InsertSymbol(current, sym)
    case Ok(t) =>
      InsertThenLocal(current, sym, sym.name);
      Ok(t)
    case Err(e) => Err(Redeclared(e.name, e.line))
  }

  /** scope_insert with `next_address++` as the address: the name goes into
      the current scope with the next free address, which is then taken. */
  function DeclareNext(st: PState, name: string, kind: SymbolKind, dtype: DataType, line: int): (r: Result<PState, ParseError>)
    ensures r.Ok? <==> Local(st.current, name).None?
    ensures r.Ok? ==> r.value == st.(current := r.value.current, next := st.next + 1)
    ensures r.Ok? ==> Local(r.value.current, name) == Some(Symbol(name, kind, dtype, line, st.next))
    ensures r.Err? ==> r.error == Redeclared(name, line)
  {
    var table :- Declare(st.current, Symbol(name, kind, dtype, line, st.next));
    Ok(st.(current := table, next := st.next + 1))
  }

  // ---------------------------------------------------------------------------
  // Expressions

  /** Is the token kind one of the operators of parse_Expression's loop? */
  predicate IsExpressionOperator(kind: TokenKind) {
    match kind
    case Plus | Minus | Eq | Neq | Lt | Lte | Gt | Gte => true
    case _ => false
  }

  /** The node an operator of parse_Expression's loop builds. */
  function BinaryKind(kind: TokenKind): NodeKind
    requires IsExpressionOperator(kind)
  {
    match kind
    case Plus => AddNode
    case Minus => SubNode
    case Eq => EqNode
    case Neq => NeqNode
    case Lt => LtNode
    case Lte => LteNode
    case Gt => GtNode
    case Gte => GteNode
  }

  /** A binary node over `left` and `right`. */
  function Binary(kind: NodeKind, left: Node, right: Node): Node {
    WithChild(WithChild(CreateNode(kind, None), left), right)
  }

  /** parse_ArgumentList: `(` then nothing or comma-separated expressions, then `)`. */
  function ArgumentList(toks: seq<Token>, st: PState): (r: Parsed<Node>)
    requires Ready(toks, st)
    ensures Steps(toks, st, r, true) && DeclaresNothing(st, r)
    decreases |toks| - st.pos, 4
  {
    var args := CreateNode(ArgListNode, None);
    var open :- Consume(toks, st, LParen);
    var items :- if Check(toks, open.1, RParen) then Ok((args, open.1)) else ArgItems(toks, open.1, args);
    var close :- Consume(toks, items.1, RParen);
    Ok((items.0, close.1))
  }

  /** The do-while loop of parse_ArgumentList: an expression, appended to
      `args`, then another item after each comma. */
  function ArgItems(toks: seq<Token>, st: PState, args: Node): (r: Parsed<Node>)
    requires Ready(toks, st)
    ensures Steps(toks, st, r, true) && DeclaresNothing(st, r)
    decreases |toks| - st.pos, 4
  {
    var e :- Expression(toks, st);
    var more := WithChild(args, e.0);
    if Check(toks, e.1, Comma) then
      ArgItems(toks, Advance(toks, e.1), more)
    else Ok((more, e.1))
  }

  /** The kinds of factor parse_Factor tells apart. */
  datatype FactorForm = CallFactor | VariableFactor | IntegerFactor | FloatFactor | NestedFactor | InvalidFactor

  /** The tests of parse_Factor, in its order: the current token and, for a
      name, whether `(` follows it. The token after a name is in bounds
      because a name is not the end marker. */
  function FactorStart(toks: seq<Token>, pos: nat): (form: FactorForm)
    requires 0 < |toks| && toks[|toks| - 1].kind == Eof && pos < |toks|
    ensures form == CallFactor ==> toks[pos].kind == Identifier && toks[pos + 1].kind == LParen
    ensures form == VariableFactor ==> toks[pos].kind == Identifier && toks[pos + 1].kind != LParen
    ensures form == NestedFactor ==> toks[pos].kind == LParen
    ensures form == InvalidFactor ==> toks[pos].kind !in {Identifier, IntegerLiteral, FloatLiteral, LParen}
  {
    var kind := toks[pos].kind;
    if kind == Identifier && toks[pos + 1].kind == LParen then CallFactor
    else if kind == Identifier then VariableFactor
    else if kind == IntegerLiteral then IntegerFactor
    else if kind == FloatLiteral then FloatFactor
    else if kind == LParen then NestedFactor
    else InvalidFactor
  }

  /** parse_Factor: a call `f(...)` of a function or procedure, a declared
      identifier, a literal, or a parenthesised expression (without a node of
      its own). */
  function Factor(toks: seq<Token>, st: PState): (r: Parsed<Node>)
    requires Ready(toks, st)
    ensures Steps(toks, st, r, true) && DeclaresNothing(st, r)
    decreases |toks| - st.pos, 1
  {
    match FactorStart(toks, st.pos)
    case CallFactor => Call(toks, st)
    case VariableFactor => Variable(toks, st)
    case IntegerFactor => Ok((CreateNode(IntLiteralNode, Some(Peek(toks, st).lexeme)), Advance(toks, st)))
    case FloatFactor => Ok((CreateNode(FloatLiteralNode, Some(Peek(toks, st).lexeme)), Advance(toks, st)))
    case NestedFactor => Parenthesised(toks, st)
    case InvalidFactor => Err(UnexpectedInExpression)
  }

  /** The identifier branch of parse_Factor: the name must resolve. */
  function Variable(toks: seq<Token>, st: PState): (r: Parsed<Node>)
    requires Ready(toks, st) && Check(toks, st, Identifier)
    ensures Steps(toks, st, r, true) && DeclaresNothing(st, r)
  {
    var name := Peek(toks, st).lexeme;
    if Resolve(Scopes(st), name).None? then Err(UndeclaredVariable(name))
    else Ok((CreateNode(IdentifierNode, Some(name)), Advance(toks, st)))
  }

  /** The last branch of parse_Factor: `(`, an expression, `)`. The
      expression's own node is the result; no node records the parentheses. */
  function Parenthesised(toks: seq<Token>, st: PState): (r: Parsed<Node>)
    requires Ready(toks, st) && Check(toks, st, LParen)
    ensures Steps(toks, st, r, true) && DeclaresNothing(st, r)
    decreases |toks| - st.pos, 0
  {
    var e :- Expression(toks, Advance(toks, st));
    var close :- Consume(toks, e.1, RParen);
    Ok((e.0, close.1))
  }

  /** Does the lookup's answer name a function or a procedure? */
  predicate Callable(sym: Option<Symbol>) {
    sym.Some? && (sym.value.kind == FunctionKind || sym.value.kind == ProcedureKind)
  }

  /** The call branch of parse_Factor: the name must resolve to a function
      or a procedure; its argument list becomes the call's only child. */
  function Call(toks: seq<Token>, st: PState): (r: Parsed<Node>)
    requires Ready(toks, st) && Check(toks, st, Identifier)
    ensures Steps(toks, st, r, true) && DeclaresNothing(st, r)
    decreases |toks| - st.pos, 0
  {
    var name := Peek(toks, st).lexeme;
    if !Callable(Resolve(Scopes(st), name)) then Err(NotCallable(name))
    else
      var args :- ArgumentList(toks, Advance(toks, st));
      Ok((WithChild(CreateNode(FuncCallNode, Some(name)), args.0), args.1))
  }

  /** parse_Term: `-` and exactly one factor, negated (no `*` or `/` is read
      after it); otherwise factors joined left to right by `*` and `/`. */
  function Term(toks: seq<Token>, st: PState): (r: Parsed<Node>)
    requires Ready(toks, st)
    ensures Steps(toks, st, r, true) && DeclaresNothing(st, r)
    decreases |toks| - st.pos, 2
  {
    if Check(toks, st, Minus) then Negation(toks, st)
    else
      var left :- Factor(toks, st);
      TermTail(toks, left.1, left.0)
  }

  /** The `-` branch of parse_Term: one factor under a NEGATE node. */
  function Negation(toks: seq<Token>, st: PState): (r: Parsed<Node>)
    requires Ready(toks, st) && Check(toks, st, Minus)
    ensures Steps(toks, st, r, true) && DeclaresNothing(st, r)
    decreases |toks| - st.pos, 0
  {
    var operand :- Factor(toks, Advance(toks, st));
    Ok((WithChild(CreateNode(NegateNode, None), operand.0), operand.1))
  }

  /** Is the token kind one of the operators of parse_Term's loop? */
  predicate IsTermOperator(kind: TokenKind) {
    match kind
    case Asterisk | Slash => true
    case _ => false
  }

  /** The node an operator of parse_Term's loop builds. */
  function ProductKind(kind: TokenKind): NodeKind
    requires IsTermOperator(kind)
  {
    match kind
    case Asterisk => MulNode
    case Slash => DivNode
  }

  /** The loop of parse_Term: while the current token is `*` or `/`, the tree
      so far becomes the left operand of a new MUL or DIV node. */
  function TermTail(toks: seq<Token>, st: PState, left: Node): (r: Parsed<Node>)
    requires Ready(toks, st)
    ensures Steps(toks, st, r, false) && DeclaresNothing(st, r)
    decreases |toks| - st.pos, 2
  {
    if IsTermOperator(Peek(toks, st).kind) then
      var op := Peek(toks, st).kind;
      var right :- Factor(toks, Advance(toks, st));
      TermTail(toks, right.1, Binary(ProductKind(op), left, right.0))
    else Ok((left, st))
  }

  /** parse_Expression: terms joined left to right by the eight operators of
      one shared precedence level. */
  function Expression(toks: seq<Token>, st: PState): (r: Parsed<Node>)
    requires Ready(toks, st)
    ensures Steps(toks, st, r, true) && DeclaresNothing(st, r)
    decreases |toks| - st.pos, 3
  {
    var left :- Term(toks, st);
    ExprTail(toks, left.1, left.0)
  }

  /** The loop of parse_Expression: while the current token is one of its
      operators, the tree so far becomes the left operand of a new node. */
  function ExprTail(toks: seq<Token>, st: PState, left: Node): (r: Parsed<Node>)
    requires Ready(toks, st)
    ensures Steps(toks, st, r, false) && DeclaresNothing(st, r)
    decreases |toks| - st.pos, 3
  {
    if IsExpressionOperator(Peek(toks, st).kind) then
      var op := Peek(toks, st).kind;
      var right :- Term(toks, Advance(toks, st));
      ExprTail(toks, right.1, Binary(BinaryKind(op), left, right.0))
    else Ok((left, st))
  }

  // ---------------------------------------------------------------------------
  // Statements

  /** parse_Declaration: a type and a name, inserted into the current scope
      with the next address before any initialiser is read; with `=` and an
      expression the result is DECL_ASSIGN[DECLARATION, ASSIGNMENT[expr]]. */
  function Declaration(toks: seq<Token>, st: PState): (r: Parsed<Node>)
    requires Ready(toks, st)
    ensures Steps(toks, st, r, true) && Allocates(st, r)
    decreases |toks| - st.pos, 4
  {
    var ty :- ParseType(toks, st);
    var id :- Consume(toks, ty.1, Identifier);
    var name := id.0.lexeme;
    var declared :- DeclareNext(id.1, name, VariableKind, ty.0, id.0.line);
    var decl := CreateNode(DeclarationNode, Some(name));
    if Check(toks, declared, Assign) then
      var e :- Expression(toks, Advance(toks, declared));
      var assign := WithChild(CreateNode(AssignmentNode, Some(name)), e.0);
      Ok((Binary(DeclAssignNode, decl, assign), e.1))
    else Ok((decl, declared))
  }

  /** parse_ReturnStatement: `return`, an expression, `;`. */
  function ReturnStatement(toks: seq<Token>, st: PState): (r: Parsed<Node>)
    requires Ready(toks, st)
    ensures Steps(toks, st, r, true) && DeclaresNothing(st, r)
    decreases |toks| - st.pos, 4
  {
    var kw :- Consume(toks, st, Return);
    var ret := CreateNode(ReturnNode, None);
    var e :- Expression(toks, kw.1);
    var semi :- Consume(toks, e.1, Semicolon);
    Ok((WithChild(ret, e.0), semi.1))
  }

  /** parse_Conditional: `if` expr `then` block, optionally `else` block
      `endelse`, then `endif`. */
  function Conditional(toks: seq<Token>, st: PState): (r: Parsed<Node>)
    requires Ready(toks, st)
    ensures Steps(toks, st, r, true) && Allocates(st, r)
    decreases |toks| - st.pos, 4
  {
    var kw :- Consume(toks, st, If);
    var cond := CreateNode(ConditionalNode, None);
    var e :- Expression(toks, kw.1);
    var then_ :- Consume(toks, e.1, Then);
    var yes :- ProgramBlock(toks, then_.1);
    var full :- ElseBranch(toks, yes.1, WithChild(WithChild(cond, e.0), yes.0));
    var endIf :- Consume(toks, full.1, EndIf);
    Ok((full.0, endIf.1))
  }

  /** The optional part of parse_Conditional: on `else`, a block that
      becomes the node's third child and then `endelse`; otherwise nothing
      is read. */
  function ElseBranch(toks: seq<Token>, st: PState, node: Node): (r: Parsed<Node>)
    requires Ready(toks, st)
    ensures Steps(toks, st, r, false) && Allocates(st, r)
    decreases |toks| - st.pos, 4
  {
    if Check(toks, st, Else) then
      var no :- ProgramBlock(toks, Advance(toks, st));
      var endElse :- Consume(toks, no.1, EndElse);
      Ok((WithChild(node, no.0), endElse.1))
    else Ok((node, st))
  }

  /** parse_Loop: `while` expr `do` block `endwhile`. */
  function Loop(toks: seq<Token>, st: PState): (r: Parsed<Node>)
    requires Ready(toks, st)
    ensures Steps(toks, st, r, true) && Allocates(st, r)
    decreases |toks| - st.pos, 4
  {
    var kw :- Consume(toks, st, While);
    var loop := CreateNode(LoopNode, None);
    var e :- Expression(toks, kw.1);
    var do_ :- Consume(toks, e.1, Do);
    var body :- ProgramBlock(toks, do_.1);
    var endWhile :- Consume(toks, body.1, EndWhile);
    Ok((WithChild(WithChild(loop, e.0), body.0), endWhile.1))
  }

  /** The kinds of statement parse_Statement tells apart. */
  datatype StatementForm =
    | IfForm | WhileForm | ReturnForm | InputOutputForm | DeclarationForm
    | CallForm | AssignmentForm | InvalidForm

  /** The tests of parse_Statement, in its order: the current token and, for
      a name, whether `(` follows it. */
  function StatementStart(toks: seq<Token>, pos: nat): (form: StatementForm)
    requires 0 < |toks| && toks[|toks| - 1].kind == Eof && pos < |toks|
    ensures form == InputOutputForm ==> toks[pos].kind in {Print, Scan}
    ensures form == DeclarationForm ==> toks[pos].kind in {Int, Float}
    ensures form == CallForm ==> toks[pos].kind == Identifier && toks[pos + 1].kind == LParen
    ensures form == AssignmentForm ==> toks[pos].kind == Identifier && toks[pos + 1].kind != LParen
    ensures form == InvalidForm ==> toks[pos].kind !in {If, While, Return, Print, Scan, Int, Float, Identifier}
  {
    var kind := toks[pos].kind;
    if kind == If then IfForm
    else if kind == While then WhileForm
    else if kind == Return then ReturnForm
    else if kind == Print || kind == Scan then InputOutputForm
    else if kind == Int || kind == Float then DeclarationForm
    else if kind == Identifier && toks[pos + 1].kind == LParen then CallForm
    else if kind == Identifier then AssignmentForm
    else InvalidForm
  }

  /** parse_Statement: the production its tests choose. */
  function Statement(toks: seq<Token>, st: PState): (r: Parsed<Node>)
    requires Ready(toks, st)
    ensures Steps(toks, st, r, true) && Allocates(st, r)
    decreases |toks| - st.pos, 6
  {
    match StatementStart(toks, st.pos)
    case IfForm => Conditional(toks, st)
    case WhileForm => Loop(toks, st)
    case ReturnForm => ReturnStatement(toks, st)
    case InputOutputForm => InputOutput(toks, st)
    case DeclarationForm => DeclarationStatement(toks, st)
    case CallForm => CallStatement(toks, st)
    case AssignmentForm => Assignment(toks, st)
    case InvalidForm => Err(InvalidStatement(Peek(toks, st).line))
  }

  /** The `print` and `scan` branches of parse_Statement: the keyword, an
      argument list as the only child, `;`. */
  function InputOutput(toks: seq<Token>, st: PState): (r: Parsed<Node>)
    requires Ready(toks, st) && (Check(toks, st, Print) || Check(toks, st, Scan))
    ensures Steps(toks, st, r, true) && DeclaresNothing(st, r)
    decreases |toks| - st.pos, 5
  {
    var node := CreateNode(if Check(toks, st, Print) then PrintNode else ScanNode, None);
    var args :- ArgumentList(toks, Advance(toks, st));
    var semi :- Consume(toks, args.1, Semicolon);
    Ok((WithChild(node, args.0), semi.1))
  }

  /** The declaration branch of parse_Statement: a declaration and `;`. */
  function DeclarationStatement(toks: seq<Token>, st: PState): (r: Parsed<Node>)
    requires Ready(toks, st)
    ensures Steps(toks, st, r, true) && Allocates(st, r)
    decreases |toks| - st.pos, 5
  {
    var decl :- Declaration(toks, st);
    var semi :- Consume(toks, decl.1, Semicolon);
    Ok((decl.0, semi.1))
  }

  /** The procedure-call branch of parse_Statement: a factor (which is a
      call, since an identifier and `(` start it) and `;`. */
  function CallStatement(toks: seq<Token>, st: PState): (r: Parsed<Node>)
    requires Ready(toks, st)
    ensures Steps(toks, st, r, true) && DeclaresNothing(st, r)
    decreases |toks| - st.pos, 5
  {
    var call :- Factor(toks, st);
    var semi :- Consume(toks, call.1, Semicolon);
    Ok((call.0, semi.1))
  }

  /** The assignment branch of parse_Statement: a name that resolves, `=`, an
      expression, `;`. */
  function Assignment(toks: seq<Token>, st: PState): (r: Parsed<Node>)
    requires Ready(toks, st) && Check(toks, st, Identifier)
    ensures Steps(toks, st, r, true) && DeclaresNothing(st, r)
    decreases |toks| - st.pos, 4
  {
    var name := Peek(toks, st).lexeme;
    if Resolve(Scopes(st), name).None? then Err(UndeclaredAssignment(name))
    else
      var eq :- Consume(toks, Advance(toks, st), Assign);
      var e :- Expression(toks, eq.1);
      var semi :- Consume(toks, e.1, Semicolon);
      Ok((WithChild(CreateNode(AssignmentNode, Some(name)), e.0), semi.1))
  }

  /** parse_ProgramBlock: `begin`, statements up to `end`, `end`. A block
      opens no scope. */
  function ProgramBlock(toks: seq<Token>, st: PState): (r: Parsed<Node>)
    requires Ready(toks, st)
    ensures Steps(toks, st, r, true) && Allocates(st, r)
    decreases |toks| - st.pos, 7
  {
    var block := CreateNode(BlockNode, None);
    var begin :- Consume(toks, st, Begin);
    var body :- BlockItems(toks, begin.1, block);
    var end :- Consume(toks, body.1, End);
    Ok((body.0, end.1))
  }

  /** The loop of parse_ProgramBlock: statements appended to `block` until the
      current token is `end`. */
  function BlockItems(toks: seq<Token>, st: PState, block: Node): (r: Parsed<Node>)
    requires Ready(toks, st)
    ensures Steps(toks, st, r, false) && Allocates(st, r)
    decreases |toks| - st.pos, 7
  {
    if Check(toks, st, End) then Ok((block, st))
    else
      var s :- Statement(toks, st);
      BlockItems(toks, s.1, WithChild(block, s.0))
  }

  // ---------------------------------------------------------------------------
  // Functions and the program

  /** The do-while loop of parse_ParameterList: a type and a name, inserted
      into the current scope with the next address, then another after each
      comma. */
  function ParamItems(toks: seq<Token>, st: PState, params: Node): (r: Parsed<Node>)
    requires Ready(toks, st)
    ensures Steps(toks, st, r, true) && Allocates(st, r)
    decreases |toks| - st.pos
  {
    var ty :- ParseType(toks, st);
    var id :- Consume(toks, ty.1, Identifier);
    var declared :- DeclareNext(id.1, id.0.lexeme, ParameterKind, ty.0, id.0.line);
    var param := CreateNode(ParamNode, Some(id.0.lexeme));
    var more := WithChild(params, param);
    if Check(toks, declared, Comma) then
      ParamItems(toks, Advance(toks, declared), more)
    else Ok((more, declared))
  }

  /** parse_ParameterList: `(` then nothing or comma-separated parameters, then `)`. */
  function ParameterList(toks: seq<Token>, st: PState): (r: Parsed<Node>)
    requires Ready(toks, st)
    ensures Steps(toks, st, r, true) && Allocates(st, r)
  {
    var params := CreateNode(ParamListNode, None);
    var open :- Consume(toks, st, LParen);
    var items :- if Check(toks, open.1, RParen) then Ok((params, open.1)) else ParamItems(toks, open.1, params);
    var close :- Consume(toks, items.1, RParen);
    Ok((items.0, close.1))
  }

  /** parse_FunctionDeclaration: the name goes into the enclosing scope with
      address 0 before anything else, so the body may call it; parameters and
      body are read in a fresh scope with addresses from 1; the node keeps
      that scope and the enclosing scope becomes current again. The next
      address is not reset afterwards. */
  function FunctionDeclaration(toks: seq<Token>, st: PState): (r: Parsed<Node>)
    requires Ready(toks, st)
    ensures Steps(toks, st, r, true)
    ensures r.Ok? ==> 1 <= r.value.1.next
  {
    var kw :- Consume(toks, st, Function);
    var ty :- ParseType(toks, kw.1);
    var id :- Consume(toks, ty.1, Identifier);
    FunctionScope(toks, id.1, Symbol(id.0.lexeme, FunctionKind, ty.0, id.0.line, 0))
  }

  /** The scope of parse_FunctionDeclaration: once the function's symbol is
      in the current scope, a fresh scope inside it, with addresses from 1,
      holds the function's parameters and body; afterwards the enclosing
      scope is current again, and the next address stays as the body left
      it. */
  function FunctionScope(toks: seq<Token>, st: PState, func: Symbol): (r: Parsed<Node>)
    requires Ready(toks, st)
    ensures Steps(toks, st, r, true)
    ensures r.Ok? ==> 1 <= r.value.1.next
  {
    var table :- Declare(st.current, func);
    var inner := PState(st.pos, EmptyTable(), [table] + st.outer, 1);
    var f :- FunctionParts(toks, inner, CreateNode(FuncDeclNode, Some(func.name)));
    Ok((f.0, PState(f.1.pos, f.1.outer[0], f.1.outer[1..], f.1.next)))
  }

  /** The part of parse_FunctionDeclaration inside the function's scope: the
      parameter list and the body become the children of `func`, which then
      owns the scope as the body leaves it. */
  function FunctionParts(toks: seq<Token>, st: PState, func: Node): (r: Parsed<Node>)
    requires Ready(toks, st)
    ensures Steps(toks, st, r, true) && Allocates(st, r)
    ensures r.Ok? ==> r.value.0.scope == Some(r.value.1.current)
  {
    var params :- ParameterList(toks, st);
    var body :- ProgramBlock(toks, params.1);
    Ok((WithChild(WithChild(func, params.0), body.0).(scope := Some(body.1.current)), body.1))
  }

  /** The loop of parse_TopLevel: function declarations until the end marker,
      or a `begin` block, which ends the loop; any other token is an error. */
  function TopLevelItems(toks: seq<Token>, st: PState, program: Node): (r: Parsed<Node>)
    requires Ready(toks, st)
    ensures Steps(toks, st, r, false)
    decreases |toks| - st.pos
  {
    if Check(toks, st, Eof) then Ok((program, st))
    else if Check(toks, st, Function) then
      var f :- FunctionDeclaration(toks, st);
      TopLevelItems(toks, f.1, WithChild(program, f.0))
    else if Check(toks, st, Begin) then
      var main :- ProgramBlock(toks, st);
      Ok((WithChild(program, main.0), main.1))
    else Err(ExpectedTopLevel)
  }

  /** parse_TopLevel: a PROGRAM node over the top-level items. */
  function TopLevel(toks: seq<Token>, st: PState): (r: Parsed<Node>)
    requires Ready(toks, st)
    ensures Steps(toks, st, r, false)
  {
    TopLevelItems(toks, st, CreateNode(ProgramNode, None))
  }

  /** parse: the program, which must be followed by the end marker. */
  function Parse(toks: seq<Token>, st: PState): (r: Parsed<Node>)
    requires Ready(toks, st)
    ensures Steps(toks, st, r, false)
    ensures r.Ok? ==> Check(toks, r.value.1, Eof)
  {
    var root :- TopLevel(toks, st);
    if !Check(toks, root.1, Eof) then Err(TrailingTokens(Peek(toks, root.1).lexeme))
    else Ok(root)
  }

  /** The whole front end after scanning: parse from the initial state. */
  function ParseProgram(toks: seq<Token>): (r: Parsed<Node>)
    requires 0 < |toks| && toks[|toks| - 1].kind == Eof
    ensures r.Ok? ==> r.value.1.outer == []
  {
    Parse(toks, Initial())
  }
}
