/** Properties of the parser's grammar and resolution rules (src/parser.c),
    stated over the reference functions of module Grammar. */
module GrammarProps {
  import opened Wrappers
  import opened Tokens
  import opened SymTab
  import opened Ast
  import opened Grammar

  // ---------------------------------------------------------------------------
  // Precedence and associativity

  /** The loop of parse_Term stops only at a token that is neither `*` nor `/`. */
  lemma {:induction false} TermTailStops(toks: seq<Token>, st: PState, left: Node)
    requires Ready(toks, st)
    requires TermTail(toks, st, left).Ok?
    ensures !IsTermOperator(toks[TermTail(toks, st, left).value.1.pos].kind)
    decreases |toks| - st.pos
  {
    if IsTermOperator(Peek(toks, st).kind) {
      var op := Peek(toks, st).kind;
      var right := Factor(toks, Advance(toks, st));
      TermTailStops(toks, right.value.1, Binary(ProductKind(op), left, right.value.0));
    }
  }

  /** `*` and `/` bind tighter than every operator of parse_Expression: a
      term that does not begin with `-` takes every `*` and `/` that follows
      it. */
  lemma TermTakesProducts(toks: seq<Token>, st: PState)
    requires Ready(toks, st) && !Check(toks, st, Minus)
    requires Term(toks, st).Ok?
    ensures !IsTermOperator(toks[Term(toks, st).value.1.pos].kind)
  {
    var left := Factor(toks, st);
    TermTailStops(toks, left.value.1, left.value.0);
  }

  /** The loop of parse_Expression stops only at a token that is not one of
      its operators. */
  lemma {:induction false} ExprTailStops(toks: seq<Token>, st: PState, left: Node)
    requires Ready(toks, st)
    requires ExprTail(toks, st, left).Ok?
    ensures !IsExpressionOperator(toks[ExprTail(toks, st, left).value.1.pos].kind)
    decreases |toks| - st.pos
  {
    if IsExpressionOperator(Peek(toks, st).kind) {
      var op := Peek(toks, st).kind;
      var right := Term(toks, Advance(toks, st));
      ExprTailStops(toks, right.value.1, Binary(BinaryKind(op), left, right.value.0));
    }
  }

  /** An expression takes every operator of its level that follows it. */
  lemma ExpressionTakesOperators(toks: seq<Token>, st: PState)
    requires Ready(toks, st)
    requires Expression(toks, st).Ok?
    ensures !IsExpressionOperator(toks[Expression(toks, st).value.1.pos].kind)
  {
    var left := Term(toks, st);
    ExprTailStops(toks, left.value.1, left.value.0);
  }

  /** The eight operators associate to the left, whatever their mix: for
      terms a, b, c joined by two of them, `a op1 b op2 c` is
      op2(op1(a, b), c). */
  lemma ExpressionLeftAssociative(toks: seq<Token>, st: PState, a: Node, s1: PState, b: Node, s2: PState, c: Node, s3: PState)
    requires Ready(toks, st)
    requires Term(toks, st) == Ok((a, s1)) && IsExpressionOperator(Peek(toks, s1).kind)
    requires Term(toks, Advance(toks, s1)) == Ok((b, s2)) && IsExpressionOperator(Peek(toks, s2).kind)
    requires Term(toks, Advance(toks, s2)) == Ok((c, s3)) && !IsExpressionOperator(Peek(toks, s3).kind)
    ensures Expression(toks, st) ==
      Ok((Binary(BinaryKind(Peek(toks, s2).kind), Binary(BinaryKind(Peek(toks, s1).kind), a, b), c), s3))
  {
    var ab := Binary(BinaryKind(Peek(toks, s1).kind), a, b);
    ExprTailStep(toks, s1, a, b, s2);
    ExprTailStep(toks, s2, ab, c, s3);
  }

  /** One round of parse_Expression's loop. */
  lemma ExprTailStep(toks: seq<Token>, st: PState, left: Node, right: Node, s1: PState)
    requires Ready(toks, st) && IsExpressionOperator(Peek(toks, st).kind)
    requires Term(toks, Advance(toks, st)) == Ok((right, s1))
    ensures ExprTail(toks, st, left) == ExprTail(toks, s1, Binary(BinaryKind(Peek(toks, st).kind), left, right))
  {
  }

  /** `*` and `/` associate to the left: for factors a, b, c, `a op1 b op2 c`
      is op2(op1(a, b), c). */
  lemma TermLeftAssociative(toks: seq<Token>, st: PState, a: Node, s1: PState, b: Node, s2: PState, c: Node, s3: PState)
    requires Ready(toks, st) && !Check(toks, st, Minus)
    requires Factor(toks, st) == Ok((a, s1)) && IsTermOperator(Peek(toks, s1).kind)
    requires Factor(toks, Advance(toks, s1)) == Ok((b, s2)) && IsTermOperator(Peek(toks, s2).kind)
    requires Factor(toks, Advance(toks, s2)) == Ok((c, s3)) && !IsTermOperator(Peek(toks, s3).kind)
    ensures Term(toks, st) ==
      Ok((Binary(ProductKind(Peek(toks, s2).kind), Binary(ProductKind(Peek(toks, s1).kind), a, b), c), s3))
  {
    var ab := Binary(ProductKind(Peek(toks, s1).kind), a, b);
    TermTailStep(toks, s1, a, b, s2);
    TermTailStep(toks, s2, ab, c, s3);
  }

  /** One round of parse_Term's loop. */
  lemma TermTailStep(toks: seq<Token>, st: PState, left: Node, right: Node, s1: PState)
    requires Ready(toks, st) && IsTermOperator(Peek(toks, st).kind)
    requires Factor(toks, Advance(toks, st)) == Ok((right, s1))
    ensures TermTail(toks, st, left) == TermTail(toks, s1, Binary(ProductKind(Peek(toks, st).kind), left, right))
  {
  }

  /** Each operator builds a node of its own kind: no two operators of the
      two loops share a node kind, so the tree records which one was read. */
  lemma OperatorNodesDistinct()
    ensures forall a, b :: IsExpressionOperator(a) && IsExpressionOperator(b) && BinaryKind(a) == BinaryKind(b) ==> a == b
    ensures forall a, b :: IsTermOperator(a) && IsTermOperator(b) && ProductKind(a) == ProductKind(b) ==> a == b
    ensures forall a, b :: IsExpressionOperator(a) && IsTermOperator(b) ==> BinaryKind(a) != ProductKind(b)
  {
  }

  /** A parenthesised expression is the inner expression's own tree: no node
      records the parentheses. */
  lemma ParenthesesAddNoNode(toks: seq<Token>, st: PState, e: Node, s1: PState)
    requires Ready(toks, st) && Check(toks, st, LParen)
    requires Expression(toks, Advance(toks, st)) == Ok((e, s1)) && Check(toks, s1, RParen)
    ensures Factor(toks, st) == Ok((e, Advance(toks, s1)))
  {
    assert FactorStart(toks, st.pos) == NestedFactor;
    ParenthesisedResult(toks, st, e, s1);
  }

  /** The `(` branch of parse_Factor on an expression and `)`. */
  lemma ParenthesisedResult(toks: seq<Token>, st: PState, e: Node, s1: PState)
    requires Ready(toks, st) && Check(toks, st, LParen)
    requires Expression(toks, Advance(toks, st)) == Ok((e, s1)) && Check(toks, s1, RParen)
    ensures Parenthesised(toks, st) == Ok((e, Advance(toks, s1)))
  {
  }

  /** A term that begins with `-` is NEGATE over exactly one factor: it ends
      where that factor ends, even when `*` or `/` comes next. */
  lemma NegationTakesOneFactor(toks: seq<Token>, st: PState, f: Node, s1: PState)
    requires Ready(toks, st) && Check(toks, st, Minus)
    requires Factor(toks, Advance(toks, st)) == Ok((f, s1))
    ensures Term(toks, st) == Ok((WithChild(CreateNode(NegateNode, None), f), s1))
  {
  }

  /** `- 1 * 2`: the expression is NEGATE(1) and stops at the `*`, which the
      caller then meets. */
  lemma NegationStopsAtProduct()
    ensures var toks := [Token(Minus, "-", 1), Token(IntegerLiteral, "1", 1), Token(Asterisk, "*", 1),
                         Token(IntegerLiteral, "2", 1), Token(Eof, "EOF", 1)];
      Expression(toks, Initial()) ==
        Ok((WithChild(CreateNode(NegateNode, None), CreateNode(IntLiteralNode, Some("1"))), Initial().(pos := 2)))
  {
    var toks := [Token(Minus, "-", 1), Token(IntegerLiteral, "1", 1), Token(Asterisk, "*", 1),
                 Token(IntegerLiteral, "2", 1), Token(Eof, "EOF", 1)];
    var one := CreateNode(IntLiteralNode, Some("1"));
    var negated := WithChild(CreateNode(NegateNode, None), one);
    assert FactorStart(toks, 1) == IntegerFactor;
    assert Factor(toks, Initial().(pos := 1)) == Ok((one, Initial().(pos := 2)));
    assert Term(toks, Initial()) == Ok((negated, Initial().(pos := 2)));
    assert ExprTail(toks, Initial().(pos := 2), negated) == Ok((negated, Initial().(pos := 2)));
  }

  // ---------------------------------------------------------------------------
  // Name resolution in expressions and assignments

  /** A bare name in an expression only has to resolve somewhere in the scope
      chain, to a symbol of any kind; it then becomes an IDENTIFIER node and
      takes one token. */
  lemma VariableResolution(toks: seq<Token>, st: PState)
    requires Ready(toks, st) && FactorStart(toks, st.pos) == VariableFactor
    ensures Factor(toks, st).Ok? <==> Resolve(Scopes(st), Peek(toks, st).lexeme).Some?
    ensures Factor(toks, st).Ok? ==>
      Factor(toks, st).value == (CreateNode(IdentifierNode, Some(Peek(toks, st).lexeme)), Advance(toks, st))
    ensures Factor(toks, st).Err? ==> Factor(toks, st).error == UndeclaredVariable(Peek(toks, st).lexeme)
  {
  }

  /** A FUNC_CALL node for `name` whose only child is an ARG_LIST. */
  predicate IsCallOf(n: Node, name: string) {
    && n.kind == FuncCallNode && n.value == Some(name) && |n.children| == 1
    && n.children[0].kind == ArgListNode && n.children[0].value == None
  }

  /** The loop of parse_ArgumentList keeps the list node and the arguments
      already in it, and appends at least one more. */
  lemma {:induction false} ArgItemsAppend(toks: seq<Token>, st: PState, args: Node)
    requires Ready(toks, st) && ArgItems(toks, st, args).Ok?
    ensures var list := ArgItems(toks, st, args).value.0;
      && list.kind == args.kind && list.value == args.value
      && |args.children| < |list.children| && list.children[..|args.children|] == args.children
    decreases |toks| - st.pos
  {
    var e := Expression(toks, st).value;
    var more := WithChild(args, e.0);
    if Check(toks, e.1, Comma) {
      ArgItemsAppend(toks, Advance(toks, e.1), more);
      var list := ArgItems(toks, st, args).value.0;
      assert list.children[..|args.children|] == list.children[..|more.children|][..|args.children|];
    }
  }

  /** parse_ArgumentList yields an ARG_LIST node with no text. */
  lemma ArgumentListNode(toks: seq<Token>, st: PState)
    requires Ready(toks, st) && ArgumentList(toks, st).Ok?
    ensures ArgumentList(toks, st).value.0.kind == ArgListNode
    ensures ArgumentList(toks, st).value.0.value == None
  {
    var open := Consume(toks, st, LParen).value;
    if !Check(toks, open.1, RParen) {
      ArgItemsAppend(toks, open.1, CreateNode(ArgListNode, None));
    }
  }

  /** `f(...)` has to resolve, through the whole chain, to a function or a
      procedure; it then is FUNC_CALL(f) over its ARG_LIST, and it fails
      exactly when the argument list does. */
  lemma CallResolution(toks: seq<Token>, st: PState)
    requires Ready(toks, st) && FactorStart(toks, st.pos) == CallFactor
    ensures var name := Peek(toks, st).lexeme;
      && (!Callable(Resolve(Scopes(st), name)) ==> Factor(toks, st) == Err(NotCallable(name)))
      && (Callable(Resolve(Scopes(st), name)) ==>
            (Factor(toks, st).Ok? <==> ArgumentList(toks, Advance(toks, st)).Ok?))
      && (Factor(toks, st).Ok? ==> Callable(Resolve(Scopes(st), name)) && IsCallOf(Factor(toks, st).value.0, name))
  {
    assert Factor(toks, st) == Call(toks, st);
    var name := Peek(toks, st).lexeme;
    var args := ArgumentList(toks, Advance(toks, st));
    if Callable(Resolve(Scopes(st), name)) {
      if args.Ok? {
        ArgumentListNode(toks, Advance(toks, st));
        CallBuilds(toks, st, args.value.0, args.value.1);
      } else {
        CallPassesOnError(toks, st);
      }
    }
  }

  /** A call of something callable whose argument list parses. */
  lemma CallBuilds(toks: seq<Token>, st: PState, args: Node, s1: PState)
    requires Ready(toks, st) && Check(toks, st, Identifier) && Callable(Resolve(Scopes(st), Peek(toks, st).lexeme))
    requires ArgumentList(toks, Advance(toks, st)) == Ok((args, s1))
    ensures Call(toks, st) == Ok((WithChild(CreateNode(FuncCallNode, Some(Peek(toks, st).lexeme)), args), s1))
  {
  }

  /** A call of something callable whose argument list does not parse. */
  lemma CallPassesOnError(toks: seq<Token>, st: PState)
    requires Ready(toks, st) && Check(toks, st, Identifier) && Callable(Resolve(Scopes(st), Peek(toks, st).lexeme))
    requires ArgumentList(toks, Advance(toks, st)).Err?
    ensures Call(toks, st).Err?
  {
  }

  /** An assignment target only has to resolve, to a symbol of any kind: an
      unresolved name is an error, and a resolved one parses exactly when
      `=`, an expression and `;` follow. The statement is then ASSIGNMENT(x)
      over that expression and ends after the `;`. */
  lemma AssignmentResolution(toks: seq<Token>, st: PState)
    requires Ready(toks, st) && StatementStart(toks, st.pos) == AssignmentForm
    ensures var name := Peek(toks, st).lexeme;
      var eq := Consume(toks, Advance(toks, st), Assign);
      && (Resolve(Scopes(st), name).None? ==> Statement(toks, st) == Err(UndeclaredAssignment(name)))
      && (Resolve(Scopes(st), name).Some? ==>
            (Statement(toks, st).Ok? <==>
               eq.Ok? && Expression(toks, eq.value.1).Ok? && Check(toks, Expression(toks, eq.value.1).value.1, Semicolon)))
      && (Statement(toks, st).Ok? ==>
            && Resolve(Scopes(st), name).Some? && eq.Ok? && Expression(toks, eq.value.1).Ok?
            && Check(toks, Expression(toks, eq.value.1).value.1, Semicolon)
            && Statement(toks, st).value ==
                 (WithChild(CreateNode(AssignmentNode, Some(name)), Expression(toks, eq.value.1).value.0),
                  Advance(toks, Expression(toks, eq.value.1).value.1)))
  {
    assert Statement(toks, st) == Assignment(toks, st);
    AssignmentShape(toks, st);
  }

  /** The assignment branch of parse_Statement on its own. */
  lemma AssignmentShape(toks: seq<Token>, st: PState)
    requires Ready(toks, st) && Check(toks, st, Identifier)
    ensures var name := Peek(toks, st).lexeme;
      var eq := Consume(toks, Advance(toks, st), Assign);
      && (Resolve(Scopes(st), name).None? ==> Assignment(toks, st) == Err(UndeclaredAssignment(name)))
      && (Resolve(Scopes(st), name).Some? ==>
            (Assignment(toks, st).Ok? <==>
               eq.Ok? && Expression(toks, eq.value.1).Ok? && Check(toks, Expression(toks, eq.value.1).value.1, Semicolon)))
      && (Assignment(toks, st).Ok? ==>
            && Resolve(Scopes(st), name).Some? && eq.Ok? && Expression(toks, eq.value.1).Ok?
            && Check(toks, Expression(toks, eq.value.1).value.1, Semicolon)
            && Assignment(toks, st).value ==
                 (WithChild(CreateNode(AssignmentNode, Some(name)), Expression(toks, eq.value.1).value.0),
                  Advance(toks, Expression(toks, eq.value.1).value.1)))
  {
  }

  // ---------------------------------------------------------------------------
  // Argument and parameter lists

  /** `()` is an empty ARG_LIST. */
  lemma EmptyArgumentList(toks: seq<Token>, st: PState)
    requires Ready(toks, st) && Check(toks, st, LParen) && Check(toks, Advance(toks, st), RParen)
    ensures ArgumentList(toks, st) == Ok((CreateNode(ArgListNode, None), st.(pos := st.pos + 2)))
  {
  }

  /** An argument is required after each comma: `)` in its place, as in a
      trailing comma, is an error. */
  lemma TrailingCommaInArguments(toks: seq<Token>, st: PState, args: Node)
    requires Ready(toks, st) && Check(toks, st, RParen)
    ensures ArgItems(toks, st, args) == Err(UnexpectedInExpression)
  {
    assert FactorStart(toks, st.pos) == InvalidFactor;
    assert Term(toks, st) == Err(UnexpectedInExpression);
  }

  /** `()` is an empty PARAM_LIST that declares nothing. */
  lemma EmptyParameterList(toks: seq<Token>, st: PState)
    requires Ready(toks, st) && Check(toks, st, LParen) && Check(toks, Advance(toks, st), RParen)
    ensures ParameterList(toks, st) == Ok((CreateNode(ParamListNode, None), st.(pos := st.pos + 2)))
  {
  }

  /** A parameter is required after each comma: `)` in its place, as in a
      trailing comma, is an error. */
  lemma TrailingCommaInParameters(toks: seq<Token>, st: PState, params: Node)
    requires Ready(toks, st) && Check(toks, st, RParen)
    ensures ParamItems(toks, st, params) == Err(ExpectedType)
  {
  }

  // ---------------------------------------------------------------------------
  // Declarations

  /** The data type a type keyword names. */
  function TypeOf(kind: TokenKind): DataType {
    if kind == Int then IntegerType else FloatType
  }

  /** `T x` with x already in the current scope is a redeclaration, reported
      with x's line; scopes further out are not consulted. */
  lemma DeclarationRejectsRedeclaration(toks: seq<Token>, st: PState)
    requires Ready(toks, st) && (Check(toks, st, Int) || Check(toks, st, Float))
    requires Check(toks, Advance(toks, st), Identifier)
    requires Local(st.current, Peek(toks, Advance(toks, st)).lexeme).Some?
    ensures var id := Peek(toks, Advance(toks, st));
      Declaration(toks, st) == Err(Redeclared(id.lexeme, id.line))
  {
  }

  /** A declaration that parses put its name into the current scope, with
      the type, the line and the next free address, and took that address. */
  lemma DeclarationDeclares(toks: seq<Token>, st: PState, node: Node, s: PState)
    requires Ready(toks, st) && Declaration(toks, st) == Ok((node, s))
    ensures Check(toks, st, Int) || Check(toks, st, Float)
    ensures Check(toks, Advance(toks, st), Identifier)
    ensures var id := Peek(toks, Advance(toks, st));
      && Local(st.current, id.lexeme).None?
      && Local(s.current, id.lexeme) == Some(Symbol(id.lexeme, VariableKind, TypeOf(Peek(toks, st).kind), id.line, st.next))
      && s.next == st.next + 1
  {
    var ty := ParseType(toks, st).value;
    var id := Consume(toks, ty.1, Identifier).value;
    var d := DeclareNext(id.1, id.0.lexeme, VariableKind, ty.0, id.0.line).value;
    assert s.current == d.current;
  }

  /** A declaration without `=` after its name is DECLARATION(x) and ends
      after the name. */
  lemma DeclarationPlain(toks: seq<Token>, st: PState, node: Node, s: PState)
    requires Ready(toks, st) && Declaration(toks, st) == Ok((node, s))
    ensures Check(toks, Advance(toks, st), Identifier)
    ensures var after := Advance(toks, Advance(toks, st));
      !Check(toks, after, Assign) ==>
        node == CreateNode(DeclarationNode, Some(Peek(toks, Advance(toks, st)).lexeme)) && s.pos == after.pos
  {
    var ty := ParseType(toks, st).value;
    var id := Consume(toks, ty.1, Identifier).value;
    var d := DeclareNext(id.1, id.0.lexeme, VariableKind, ty.0, id.0.line).value;
    if !Check(toks, d, Assign) {
      assert node == CreateNode(DeclarationNode, Some(id.0.lexeme)) && s == d;
    }
  }

  /** A declaration with `=` after its name is
      DECL_ASSIGN[DECLARATION(x), ASSIGNMENT(x)[e]], where e is the expression
      read after the `=` in the state that already holds x, and the
      declaration ends where e does. */
  lemma DeclarationWithInitialiser(toks: seq<Token>, st: PState, node: Node, s: PState)
    requires Ready(toks, st) && Declaration(toks, st) == Ok((node, s))
    ensures Check(toks, Advance(toks, st), Identifier)
    ensures var id := Peek(toks, Advance(toks, st));
      var after := Advance(toks, Advance(toks, st));
      var declared := DeclareNext(after, id.lexeme, VariableKind, TypeOf(Peek(toks, st).kind), id.line);
      Check(toks, after, Assign) ==>
        && node.kind == DeclAssignNode && |node.children| == 2
        && node.children[0] == CreateNode(DeclarationNode, Some(id.lexeme))
        && node.children[1].kind == AssignmentNode && node.children[1].value == Some(id.lexeme)
        && |node.children[1].children| == 1
        && declared.Ok?
        && Expression(toks, Advance(toks, declared.value)) == Ok((node.children[1].children[0], s))
  {
    var ty := ParseType(toks, st).value;
    var id := Consume(toks, ty.1, Identifier).value;
    var name := id.0.lexeme;
    var d := DeclareNext(id.1, name, VariableKind, ty.0, id.0.line).value;
    if Check(toks, d, Assign) {
      var e := Expression(toks, Advance(toks, d)).value;
      assert node == Binary(DeclAssignNode, CreateNode(DeclarationNode, Some(name)), WithChild(CreateNode(AssignmentNode, Some(name)), e.0));
    }
  }

  /** `int x = x`: the name is declared before its initialiser is read, so
      the initialiser may use it. */
  lemma InitialiserSeesItsName()
    ensures var toks := [Token(Int, "int", 1), Token(Identifier, "x", 1), Token(Assign, "=", 1),
                         Token(Identifier, "x", 1), Token(Semicolon, ";", 1), Token(Eof, "EOF", 1)];
      && Declaration(toks, Initial()).Ok?
      && Declaration(toks, Initial()).value.0 ==
           Binary(DeclAssignNode, CreateNode(DeclarationNode, Some("x")),
                  WithChild(CreateNode(AssignmentNode, Some("x")), CreateNode(IdentifierNode, Some("x"))))
  {
    var toks := [Token(Int, "int", 1), Token(Identifier, "x", 1), Token(Assign, "=", 1),
                 Token(Identifier, "x", 1), Token(Semicolon, ";", 1), Token(Eof, "EOF", 1)];
    var x := Symbol("x", VariableKind, IntegerType, 1, 0);
    var s1 := Advance(toks, Initial());
    assert ParseType(toks, Initial()) == Ok((IntegerType, s1));
    var s2 := Advance(toks, s1);
    assert Consume(toks, s1, Identifier) == Ok((toks[1], s2));
    EmptyTableWellFormed();
    var declared := DeclareNext(s2, "x", VariableKind, IntegerType, 1);
    assert declared.Ok?;
    var d := declared.value;
    var s3 := Advance(toks, d);
    assert Resolve(Scopes(s3), "x") == Some(x);
    assert FactorStart(toks, 3) == VariableFactor;
    var name := CreateNode(IdentifierNode, Some("x"));
    var s4 := Advance(toks, s3);
    assert Factor(toks, s3) == Ok((name, s4));
    assert Term(toks, s3) == Ok((name, s4));
    assert Expression(toks, s3) == Ok((name, s4));
    var decl := CreateNode(DeclarationNode, Some("x"));
    assert Declaration(toks, Initial()) == Ok((Binary(DeclAssignNode, decl, WithChild(CreateNode(AssignmentNode, Some("x")), name)), s4));
  }

  // ---------------------------------------------------------------------------
  // Parameters and functions

  /** Does `t` map the name a node carries to a symbol of this kind at this
      address? */
  predicate DeclaredAt(t: Table, n: Node, kind: SymbolKind, address: int) {
    && n.value.Some?
    && Local(t, n.value.value).Some?
    && Local(t, n.value.value).value.kind == kind
    && Local(t, n.value.value).value.address == address
  }

  /** DeclareNext leaves every other name of the current scope as it was. */
  lemma DeclareNextKeeps(st: PState, name: string, kind: SymbolKind, dtype: DataType, line: int, n: string)
    requires DeclareNext(st, name, kind, dtype, line).Ok? && n != name
    ensures Local(DeclareNext(st, name, kind, dtype, line).value.current, n) == Local(st.current, n)
  {
    InsertFailsIffDeclared(st.current, Symbol(name, kind, dtype, line, st.next));
    InsertThenLocal(st.current, Symbol(name, kind, dtype, line, st.next), n);
  }

  /** One round of parse_ParameterList's loop: a parameter `T x`, declared
      in the current scope with the next address, then more after a comma. */
  lemma ParamItemsStep(toks: seq<Token>, st: PState, params: Node) returns (name: string, d: PState)
    requires Ready(toks, st) && ParamItems(toks, st, params).Ok?
    ensures Ready(toks, d) && d.outer == st.outer && d.next == st.next + 1 && st.pos < d.pos
    ensures Local(st.current, name).None?
    ensures Local(d.current, name).Some? && Local(d.current, name).value.kind == ParameterKind
    ensures Local(d.current, name).value.address == st.next
    ensures forall n :: n != name ==> Local(d.current, n) == Local(st.current, n)
    ensures var more := WithChild(params, CreateNode(ParamNode, Some(name)));
      ParamItems(toks, st, params) ==
        if Check(toks, d, Comma) then ParamItems(toks, Advance(toks, d), more) else Ok((more, d))
  {
    var ty := ParseType(toks, st).value;
    var id := Consume(toks, ty.1, Identifier).value;
    name := id.0.lexeme;
    d := DeclareNext(id.1, name, ParameterKind, ty.0, id.0.line).value;
    forall n | n != name
      ensures Local(d.current, n) == Local(st.current, n)
    {
      DeclareNextKeeps(id.1, name, ParameterKind, ty.0, id.0.line, n);
    }
  }

  /** A prefix of a prefix is a prefix. */
  lemma PrefixOfPrefix<T>(x: seq<T>, y: seq<T>, z: seq<T>)
    requires |x| <= |y| <= |z| && z[..|y|] == y && y[..|x|] == x
    ensures z[..|x|] == x
  {
    assert z[..|x|] == z[..|y|][..|x|];
  }

  /** A prefix agrees with the whole sequence at each of its indices. */
  lemma PrefixAt<T>(z: seq<T>, y: seq<T>, i: int)
    requires |y| <= |z| && z[..|y|] == y && 0 <= i < |y|
    ensures z[i] == y[i]
  {
    assert z[i] == z[..|y|][i];
  }

  /** The loop of parse_ParameterList appends one node per parameter after
      the ones already in the list, and takes one address per parameter. */
  lemma {:induction false} ParamItemsCount(toks: seq<Token>, st: PState, params: Node, list: Node, s: PState)
    requires Ready(toks, st) && ParamItems(toks, st, params) == Ok((list, s))
    ensures list.kind == params.kind && list.value == params.value
    ensures |params.children| < |list.children| && list.children[..|params.children|] == params.children
    ensures s.next == st.next + |list.children| - |params.children|
    decreases |toks| - st.pos
  {
    var name, d := ParamItemsStep(toks, st, params);
    var more := WithChild(params, CreateNode(ParamNode, Some(name)));
    if Check(toks, d, Comma) {
      ParamItemsCount(toks, Advance(toks, d), more, list, s);
      PrefixOfPrefix(params.children, more.children, list.children);
    } else {
      assert list == more && s == d;
    }
  }

  /** The loop of parse_ParameterList leaves the names already in the
      current scope as they were. */
  lemma {:induction false} ParamItemsKeep(toks: seq<Token>, st: PState, params: Node, list: Node, s: PState)
    requires Ready(toks, st) && ParamItems(toks, st, params) == Ok((list, s))
    ensures forall n :: Local(st.current, n).Some? ==> Local(s.current, n) == Local(st.current, n)
    decreases |toks| - st.pos
  {
    var name, d := ParamItemsStep(toks, st, params);
    var more := WithChild(params, CreateNode(ParamNode, Some(name)));
    if Check(toks, d, Comma) {
      var d' := Advance(toks, d);
      ParamItemsKeep(toks, d', more, list, s);
      forall n | Local(st.current, n).Some?
        ensures Local(s.current, n) == Local(st.current, n)
      {
        assert Local(d'.current, n) == Local(st.current, n);
      }
    } else {
      assert s == d;
    }
  }

  /** The loop of parse_ParameterList declares parameter k (counting from 0)
      in the current scope with address next + k. */
  lemma ParamItemsNumber(toks: seq<Token>, st: PState, params: Node, list: Node, s: PState)
    requires Ready(toks, st) && ParamItems(toks, st, params) == Ok((list, s))
    ensures forall i :: |params.children| <= i < |list.children| ==>
      list.children[i].kind == ParamNode && DeclaredAt(s.current, list.children[i], ParameterKind, st.next + i - |params.children|)
  {
    forall i | |params.children| <= i < |list.children|
      ensures list.children[i].kind == ParamNode && DeclaredAt(s.current, list.children[i], ParameterKind, st.next + i - |params.children|)
    {
      ParamItemsNumberAt(toks, st, params, list, s, i);
    }
  }

  /** ParamItemsNumber for the parameter at index i of the list. */
  lemma {:induction false} ParamItemsNumberAt(toks: seq<Token>, st: PState, params: Node, list: Node, s: PState, i: int)
    requires Ready(toks, st) && ParamItems(toks, st, params) == Ok((list, s))
    requires |params.children| <= i < |list.children|
    ensures list.children[i].kind == ParamNode && DeclaredAt(s.current, list.children[i], ParameterKind, st.next + i - |params.children|)
    decreases |toks| - st.pos, 1
  {
    var name, d := ParamItemsStep(toks, st, params);
    var more := WithChild(params, CreateNode(ParamNode, Some(name)));
    if Check(toks, d, Comma) {
      ParamItemsNumberMore(toks, d, more, list, s, name, i);
    } else {
      assert list == more && s == d;
      assert list.children[i] == more.children[i];
    }
  }

  /** ParamItemsNumberAt after a comma: `more` ends with the node of the
      parameter `name` just declared in `d` with the address before d.next. */
  lemma {:induction false} ParamItemsNumberMore(toks: seq<Token>, d: PState, more: Node, list: Node, s: PState, name: string, i: int)
    requires Ready(toks, d) && Check(toks, d, Comma)
    requires ParamItems(toks, Advance(toks, d), more) == Ok((list, s))
    requires 0 < |more.children| && more.children[|more.children| - 1] == CreateNode(ParamNode, Some(name))
    requires Local(d.current, name).Some? && Local(d.current, name).value.kind == ParameterKind
    requires Local(d.current, name).value.address == d.next - 1
    requires |more.children| - 1 <= i < |list.children|
    ensures list.children[i].kind == ParamNode
    ensures DeclaredAt(s.current, list.children[i], ParameterKind, d.next - 1 + i - (|more.children| - 1))
    decreases |toks| - d.pos, 0
  {
    var d' := Advance(toks, d);
    assert d'.current == d.current && d'.next == d.next;
    ParamItemsCount(toks, d', more, list, s);
    if i == |more.children| - 1 {
      PrefixAt(list.children, more.children, i);
      ParamItemsKeepsName(toks, d', more, list, s, name);
    } else {
      ParamItemsNumberAt(toks, d', more, list, s, i);
    }
  }

  /** ParamItemsKeep for one name. */
  lemma ParamItemsKeepsName(toks: seq<Token>, st: PState, params: Node, list: Node, s: PState, n: string)
    requires Ready(toks, st) && ParamItems(toks, st, params) == Ok((list, s))
    requires Local(st.current, n).Some?
    ensures Local(s.current, n) == Local(st.current, n)
  {
    ParamItemsKeep(toks, st, params, list, s);
  }

  /** parse_ParameterList after its `(`: an empty list at `)`, otherwise
      the loop from the state `open`; `items` is the state before `)`. */
  lemma ParameterListItems(toks: seq<Token>, st: PState, list: Node, s: PState) returns (open: PState, items: PState)
    requires Ready(toks, st) && ParameterList(toks, st) == Ok((list, s))
    ensures Ready(toks, open) && open.current == st.current && open.next == st.next
    ensures s.current == items.current && s.next == items.next
    ensures if Check(toks, open, RParen) then list == CreateNode(ParamListNode, None) && items == open
      else ParamItems(toks, open, CreateNode(ParamListNode, None)) == Ok((list, items))
  {
    open := Consume(toks, st, LParen).value.1;
    var it := if Check(toks, open, RParen) then Ok((CreateNode(ParamListNode, None), open))
      else ParamItems(toks, open, CreateNode(ParamListNode, None));
    items := it.value.1;
  }

  /** parse_ParameterList yields a PARAM_LIST with no text and takes one
      address per parameter. */
  lemma ParameterListCount(toks: seq<Token>, st: PState, list: Node, s: PState)
    requires Ready(toks, st) && ParameterList(toks, st) == Ok((list, s))
    ensures list.kind == ParamListNode && list.value == None
    ensures s.next == st.next + |list.children|
  {
    var open, items := ParameterListItems(toks, st, list, s);
    if !Check(toks, open, RParen) {
      ParamItemsCount(toks, open, CreateNode(ParamListNode, None), list, items);
    }
  }

  /** parse_ParameterList declares parameter k (counting from 0) with
      address next + k. */
  lemma ParameterListNumber(toks: seq<Token>, st: PState, list: Node, s: PState)
    requires Ready(toks, st) && ParameterList(toks, st) == Ok((list, s))
    ensures forall i :: 0 <= i < |list.children| ==>
      list.children[i].kind == ParamNode && DeclaredAt(s.current, list.children[i], ParameterKind, st.next + i)
  {
    var open, items := ParameterListItems(toks, st, list, s);
    if Check(toks, open, RParen) {
      assert list.children == [];
    } else {
      var empty := CreateNode(ParamListNode, None);
      ParamItemsNumber(toks, open, empty, list, items);
      forall i | 0 <= i < |list.children|
        ensures list.children[i].kind == ParamNode && DeclaredAt(s.current, list.children[i], ParameterKind, st.next + i)
      {
        assert DeclaredAt(items.current, list.children[i], ParameterKind, open.next + i - |empty.children|);
      }
    }
  }

  /** The loop of parse_ProgramBlock keeps the block node's kind and text. */
  lemma {:induction false} BlockItemsKeep(toks: seq<Token>, st: PState, block: Node)
    requires Ready(toks, st) && BlockItems(toks, st, block).Ok?
    ensures BlockItems(toks, st, block).value.0.kind == block.kind
    ensures BlockItems(toks, st, block).value.0.value == block.value
    decreases |toks| - st.pos
  {
    if !Check(toks, st, End) {
      var stmt := Statement(toks, st).value;
      BlockItemsKeep(toks, stmt.1, WithChild(block, stmt.0));
    }
  }

  /** parse_ProgramBlock yields a BLOCK node. */
  lemma ProgramBlockNode(toks: seq<Token>, st: PState)
    requires Ready(toks, st) && ProgramBlock(toks, st).Ok?
    ensures ProgramBlock(toks, st).value.0.kind == BlockNode
  {
    var begin := Consume(toks, st, Begin).value;
    BlockItemsKeep(toks, begin.1, CreateNode(BlockNode, None));
  }

  // ---------------------------------------------------------------------------
  // Blocks open no scope: names stay declared until their scope is left

  /** Every name `a` holds is in `b` with the same symbol. */
  ghost predicate KeepsNames(a: Table, b: Table) {
    forall n :: Local(a, n).Some? ==> Local(b, n) == Local(a, n)
  }

  /** A declaration adds its name and keeps every name already declared. */
  lemma DeclarationKeepsNames(toks: seq<Token>, st: PState)
    requires Ready(toks, st) && Declaration(toks, st).Ok?
    ensures KeepsNames(st.current, Declaration(toks, st).value.1.current)
  {
    var ty := ParseType(toks, st).value;
    var id := Consume(toks, ty.1, Identifier).value;
    var d := DeclareNext(id.1, id.0.lexeme, VariableKind, ty.0, id.0.line).value;
    assert Declaration(toks, st).value.1.current == d.current;
    forall n | Local(st.current, n).Some?
      ensures Local(d.current, n) == Local(st.current, n)
    {
      DeclareNextKeeps(id.1, id.0.lexeme, VariableKind, ty.0, id.0.line, n);
    }
  }

  /** An `if` keeps the names of the current scope: its blocks declare into it. */
  lemma ConditionalKeepsNames(toks: seq<Token>, st: PState)
    requires Ready(toks, st) && Conditional(toks, st).Ok?
    ensures KeepsNames(st.current, Conditional(toks, st).value.1.current)
    decreases |toks| - st.pos, 4
  {
    var kw := Consume(toks, st, If).value;
    var e := Expression(toks, kw.1).value;
    var then_ := Consume(toks, e.1, Then).value;
    ProgramBlockKeepsNames(toks, then_.1);
    var yes := ProgramBlock(toks, then_.1).value;
    var node := WithChild(WithChild(CreateNode(ConditionalNode, None), e.0), yes.0);
    ElseBranchKeepsNames(toks, yes.1, node);
    KeepsNamesTrans(st.current, yes.1.current, ElseBranch(toks, yes.1, node).value.1.current);
  }

  /** The `else` part keeps the names of the current scope too. */
  lemma ElseBranchKeepsNames(toks: seq<Token>, st: PState, node: Node)
    requires Ready(toks, st) && ElseBranch(toks, st, node).Ok?
    ensures KeepsNames(st.current, ElseBranch(toks, st, node).value.1.current)
    decreases |toks| - st.pos, 4
  {
    if Check(toks, st, Else) {
      ProgramBlockKeepsNames(toks, Advance(toks, st));
    }
  }

  /** Keeping names composes. */
  lemma KeepsNamesTrans(a: Table, b: Table, c: Table)
    requires KeepsNames(a, b) && KeepsNames(b, c)
    ensures KeepsNames(a, c)
  {
    forall n | Local(a, n).Some?
      ensures Local(c, n) == Local(a, n)
    {
      assert Local(b, n) == Local(a, n);
    }
  }

  /** A `while` keeps the names of the current scope: its block declares into it. */
  lemma LoopKeepsNames(toks: seq<Token>, st: PState)
    requires Ready(toks, st) && Loop(toks, st).Ok?
    ensures KeepsNames(st.current, Loop(toks, st).value.1.current)
    decreases |toks| - st.pos, 4
  {
    var kw := Consume(toks, st, While).value;
    var e := Expression(toks, kw.1).value;
    var do_ := Consume(toks, e.1, Do).value;
    ProgramBlockKeepsNames(toks, do_.1);
  }

  /** No statement removes or changes a name of the current scope. */
  lemma StatementKeepsNames(toks: seq<Token>, st: PState)
    requires Ready(toks, st) && Statement(toks, st).Ok?
    ensures KeepsNames(st.current, Statement(toks, st).value.1.current)
    decreases |toks| - st.pos, 6
  {
    match StatementStart(toks, st.pos)
    case IfForm => ConditionalKeepsNames(toks, st);
    case WhileForm => LoopKeepsNames(toks, st);
    case DeclarationForm => DeclarationKeepsNames(toks, st);
    case _ =>
  }

  /** A block keeps the names of the current scope, so a name declared in it
      stays declared in that scope after the block ends. */
  lemma ProgramBlockKeepsNames(toks: seq<Token>, st: PState)
    requires Ready(toks, st) && ProgramBlock(toks, st).Ok?
    ensures KeepsNames(st.current, ProgramBlock(toks, st).value.1.current)
    decreases |toks| - st.pos, 7
  {
    var begin := Consume(toks, st, Begin).value;
    BlockItemsKeepsNames(toks, begin.1, CreateNode(BlockNode, None));
  }

  /** The statements of a block, one after another, keep the names of the
      current scope. */
  lemma BlockItemsKeepsNames(toks: seq<Token>, st: PState, block: Node)
    requires Ready(toks, st) && BlockItems(toks, st, block).Ok?
    ensures KeepsNames(st.current, BlockItems(toks, st, block).value.1.current)
    decreases |toks| - st.pos, 7
  {
    if !Check(toks, st, End) {
      StatementKeepsNames(toks, st);
      var stmt := Statement(toks, st).value;
      BlockItemsKeepsNames(toks, stmt.1, WithChild(block, stmt.0));
      KeepsNamesTrans(st.current, stmt.1.current, BlockItems(toks, st, block).value.1.current);
    }
  }

  /** A name declared once stays declared: in any later state of the same
      scope that kept the names (after any further statements of the block,
      in nested `if` and `while` bodies too), declaring it again is a
      redeclaration, reported with the line of the second declaration. */
  lemma RedeclarationLater(toks: seq<Token>, st: PState, node: Node, s: PState, later: PState)
    requires Ready(toks, st) && Declaration(toks, st) == Ok((node, s))
    requires Ready(toks, later) && KeepsNames(s.current, later.current)
    requires Check(toks, later, Int) || Check(toks, later, Float)
    requires Check(toks, Advance(toks, later), Identifier)
    requires Peek(toks, Advance(toks, later)).lexeme == Peek(toks, Advance(toks, st)).lexeme
    ensures var id := Peek(toks, Advance(toks, later));
      Declaration(toks, later) == Err(Redeclared(id.lexeme, id.line))
  {
    DeclarationDeclares(toks, st, node, s);
    DeclarationRejectsRedeclaration(toks, later);
  }

  /** `T x; S T x;` in one block: whatever statement S stands between them,
      even an `if` or `while` whose body declares names, the second
      declaration of x is rejected. */
  lemma RedeclarationAfterStatement(toks: seq<Token>, st: PState, node: Node, s: PState, stmt: Node, s2: PState)
    requires Ready(toks, st) && Declaration(toks, st) == Ok((node, s))
    requires Statement(toks, s) == Ok((stmt, s2))
    requires Check(toks, s2, Int) || Check(toks, s2, Float)
    requires Check(toks, Advance(toks, s2), Identifier)
    requires Peek(toks, Advance(toks, s2)).lexeme == Peek(toks, Advance(toks, st)).lexeme
    ensures var id := Peek(toks, Advance(toks, s2));
      Declaration(toks, s2) == Err(Redeclared(id.lexeme, id.line))
  {
    StatementKeepsNames(toks, s);
    RedeclarationLater(toks, st, node, s, s2);
  }

  /** Inside the function's scope: FUNC_DECL(f) with two children, owning
      the scope as the body leaves it. */
  lemma FunctionPartsNode(toks: seq<Token>, st: PState, name: string, node: Node, s: PState)
    requires Ready(toks, st) && FunctionParts(toks, st, CreateNode(FuncDeclNode, Some(name))) == Ok((node, s))
    ensures node.kind == FuncDeclNode && node.value == Some(name) && node.scope == Some(s.current)
    ensures |node.children| == 2
  {
    var params := ParameterList(toks, st).value;
    var body := ProgramBlock(toks, params.1).value;
    assert node == WithChild(WithChild(CreateNode(FuncDeclNode, Some(name)), params.0), body.0).(scope := Some(body.1.current));
  }

  /** The function's first child is the parameter list as parse_ParameterList
      reads it in the function's scope; `after` is the state it leaves. */
  lemma FunctionParameters(toks: seq<Token>, st: PState, name: string, node: Node, s: PState) returns (after: PState)
    requires Ready(toks, st) && FunctionParts(toks, st, CreateNode(FuncDeclNode, Some(name))) == Ok((node, s))
    ensures |node.children| == 2 && Ready(toks, after)
    ensures ParameterList(toks, st) == Ok((node.children[0], after))
  {
    var params := ParameterList(toks, st).value;
    var body := ProgramBlock(toks, params.1).value;
    assert node == WithChild(WithChild(CreateNode(FuncDeclNode, Some(name)), params.0), body.0).(scope := Some(body.1.current));
    after := params.1;
  }

  /** The function's second child is the body as parse_ProgramBlock reads it
      from where the parameter list ends. */
  lemma FunctionBody(toks: seq<Token>, st: PState, name: string, node: Node, s: PState, after: PState)
    requires Ready(toks, st) && FunctionParts(toks, st, CreateNode(FuncDeclNode, Some(name))) == Ok((node, s))
    requires |node.children| == 2 && Ready(toks, after) && ParameterList(toks, st) == Ok((node.children[0], after))
    ensures ProgramBlock(toks, after) == Ok((node.children[1], s))
  {
    var body := ProgramBlock(toks, after).value;
    assert node == WithChild(WithChild(CreateNode(FuncDeclNode, Some(name)), node.children[0]), body.0).(scope := Some(body.1.current));
  }

  /** The two children are a PARAM_LIST and a BLOCK, and the next address
      is past the parameters. */
  lemma FunctionPartsChildren(toks: seq<Token>, st: PState, name: string, node: Node, s: PState)
    requires Ready(toks, st) && FunctionParts(toks, st, CreateNode(FuncDeclNode, Some(name))) == Ok((node, s))
    ensures |node.children| == 2 && node.children[0].kind == ParamListNode && node.children[1].kind == BlockNode
    ensures st.next + |node.children[0].children| <= s.next
  {
    var after := FunctionParameters(toks, st, name, node, s);
    FunctionBody(toks, st, name, node, s, after);
    ParameterListCount(toks, st, node.children[0], after);
    ProgramBlockNode(toks, after);
  }

  /** parse_FunctionDeclaration once its header is read: the function's
      symbol goes into the current scope, an error if its name is already
      there; afterwards that scope is current again, holding the function
      and otherwise unchanged. */
  lemma FunctionScopeDeclares(toks: seq<Token>, st: PState, func: Symbol, node: Node, s: PState)
    requires Ready(toks, st) && FunctionScope(toks, st, func) == Ok((node, s))
    ensures Local(st.current, func.name).None?
    ensures Local(s.current, func.name) == Some(func)
    ensures forall n :: n != func.name ==> Local(s.current, n) == Local(st.current, n)
    ensures s.outer == st.outer
  {
    var table := Declare(st.current, func).value;
    var inner := PState(st.pos, EmptyTable(), [table] + st.outer, 1);
    var f := FunctionParts(toks, inner, CreateNode(FuncDeclNode, Some(func.name))).value;
    assert s.current == f.1.outer[0] == table;
    InsertFailsIffDeclared(st.current, func);
    forall n | n != func.name
      ensures Local(s.current, n) == Local(st.current, n)
    {
      InsertThenLocal(st.current, func, n);
    }
  }

  /** The parameters and the body are read in a fresh, empty scope inside the
      one that holds the function, with addresses from 1; the next address
      stays as the body leaves it. */
  lemma FunctionScopeInner(toks: seq<Token>, st: PState, func: Symbol, node: Node, s: PState)
    requires Ready(toks, st) && FunctionScope(toks, st, func) == Ok((node, s))
    ensures var inner := PState(st.pos, EmptyTable(), [s.current] + st.outer, 1);
      && FunctionParts(toks, inner, CreateNode(FuncDeclNode, Some(func.name))).Ok?
      && FunctionParts(toks, inner, CreateNode(FuncDeclNode, Some(func.name))).value.0 == node
      && FunctionParts(toks, inner, CreateNode(FuncDeclNode, Some(func.name))).value.1.next == s.next
  {
    var table := Declare(st.current, func).value;
    var inner := PState(st.pos, EmptyTable(), [table] + st.outer, 1);
    var f := FunctionParts(toks, inner, CreateNode(FuncDeclNode, Some(func.name))).value;
    assert node == f.0 && s == PState(f.1.pos, f.1.outer[0], f.1.outer[1..], f.1.next);
  }

  /** In the fresh scope of a function, whose parent holds the function, the
      function's own name resolves to it: the body may call itself. */
  lemma OwnNameResolves(pos: nat, table: Table, outer: seq<Table>, func: Symbol)
    requires Local(table, func.name) == Some(func)
    ensures Resolve(Scopes(PState(pos, EmptyTable(), [table] + outer, 1)), func.name) == Some(func)
  {
    EmptyTableWellFormed();
    assert Scopes(PState(pos, EmptyTable(), [table] + outer, 1))[1..] == [table] + outer;
  }

  /** parse_FunctionDeclaration: `function T f` puts f into the current
      scope as a function of type T, with its line and address 0, unless f
      is already there. */
  lemma FunctionDeclared(toks: seq<Token>, st: PState, node: Node, s: PState)
    requires Ready(toks, st) && FunctionDeclaration(toks, st) == Ok((node, s))
    ensures Check(toks, st, Function)
    ensures Check(toks, Advance(toks, st), Int) || Check(toks, Advance(toks, st), Float)
    ensures Check(toks, Advance(toks, Advance(toks, st)), Identifier)
    ensures var id := Peek(toks, Advance(toks, Advance(toks, st)));
      && Local(st.current, id.lexeme).None?
      && Local(s.current, id.lexeme) == Some(Symbol(id.lexeme, FunctionKind, TypeOf(Peek(toks, Advance(toks, st)).kind), id.line, 0))
  {
    var kw := Consume(toks, st, Function).value;
    var ty := ParseType(toks, kw.1).value;
    var id := Consume(toks, ty.1, Identifier).value;
    FunctionScopeDeclares(toks, id.1, Symbol(id.0.lexeme, FunctionKind, ty.0, id.0.line, 0), node, s);
  }

  /** `function T f` with f already in the current scope is a redeclaration,
      reported with f's line. */
  lemma FunctionRedeclared(toks: seq<Token>, st: PState)
    requires Ready(toks, st) && Check(toks, st, Function)
    requires Check(toks, Advance(toks, st), Int) || Check(toks, Advance(toks, st), Float)
    requires Check(toks, Advance(toks, Advance(toks, st)), Identifier)
    requires Local(st.current, Peek(toks, Advance(toks, Advance(toks, st))).lexeme).Some?
    ensures var id := Peek(toks, Advance(toks, Advance(toks, st)));
      FunctionDeclaration(toks, st) == Err(Redeclared(id.lexeme, id.line))
  {
  }

  /** A function declaration is FUNC_DECL(f)[PARAM_LIST, BLOCK]. */
  lemma FunctionDeclarationNode(toks: seq<Token>, st: PState, node: Node, s: PState)
    requires Ready(toks, st) && FunctionDeclaration(toks, st) == Ok((node, s))
    ensures node.kind == FuncDeclNode && node.value == Some(Peek(toks, Advance(toks, Advance(toks, st))).lexeme)
    ensures |node.children| == 2 && node.children[0].kind == ParamListNode && node.children[1].kind == BlockNode
  {
    var kw := Consume(toks, st, Function).value;
    var ty := ParseType(toks, kw.1).value;
    var id := Consume(toks, ty.1, Identifier).value;
    var func := Symbol(id.0.lexeme, FunctionKind, ty.0, id.0.line, 0);
    FunctionScopeInner(toks, id.1, func, node, s);
    var inner := PState(id.1.pos, EmptyTable(), [s.current] + id.1.outer, 1);
    var f := FunctionParts(toks, inner, CreateNode(FuncDeclNode, Some(func.name))).value;
    FunctionPartsNode(toks, inner, func.name, f.0, f.1);
    FunctionPartsChildren(toks, inner, func.name, f.0, f.1);
  }

  /** Addresses in a function: its parameters are numbered from 1 in the
      function's own scope, and the body is read in that scope (`body`) with
      addresses continuing after them; the next address is then left as the
      body leaves it. */
  lemma FunctionAddresses(toks: seq<Token>, st: PState, node: Node, s: PState) returns (body: PState)
    requires Ready(toks, st) && FunctionDeclaration(toks, st) == Ok((node, s))
    ensures |node.children| == 2 && Ready(toks, body)
    ensures forall i :: 0 <= i < |node.children[0].children| ==>
      node.children[0].children[i].kind == ParamNode && DeclaredAt(body.current, node.children[0].children[i], ParameterKind, 1 + i)
    ensures body.next == 1 + |node.children[0].children|
    ensures ProgramBlock(toks, body).Ok? && ProgramBlock(toks, body).value.0 == node.children[1]
    ensures ProgramBlock(toks, body).value.1.next == s.next
    ensures node.scope == Some(ProgramBlock(toks, body).value.1.current)
  {
    var kw := Consume(toks, st, Function).value;
    var ty := ParseType(toks, kw.1).value;
    var id := Consume(toks, ty.1, Identifier).value;
    var func := Symbol(id.0.lexeme, FunctionKind, ty.0, id.0.line, 0);
    FunctionScopeInner(toks, id.1, func, node, s);
    var inner := PState(id.1.pos, EmptyTable(), [s.current] + id.1.outer, 1);
    var f := FunctionParts(toks, inner, CreateNode(FuncDeclNode, Some(func.name))).value;
    body := FunctionParameters(toks, inner, func.name, f.0, f.1);
    FunctionBody(toks, inner, func.name, f.0, f.1, body);
    ParameterListNumber(toks, inner, node.children[0], body);
    ParameterListCount(toks, inner, node.children[0], body);
    FunctionPartsNode(toks, inner, func.name, node, f.1);
  }

  /** The scope a FUNC_DECL node owns still holds every parameter, of kind
      PARAMETER at addresses 1, 2, ... in order: the body's declarations
      never displace a parameter. */
  lemma FunctionOwnsParameters(toks: seq<Token>, st: PState, node: Node, s: PState)
    requires Ready(toks, st) && FunctionDeclaration(toks, st) == Ok((node, s))
    ensures |node.children| == 2 && node.scope.Some?
    ensures forall i :: 0 <= i < |node.children[0].children| ==>
      DeclaredAt(node.scope.value, node.children[0].children[i], ParameterKind, 1 + i)
  {
    var body := FunctionAddresses(toks, st, node, s);
    ProgramBlockKeepsNames(toks, body);
    var params := node.children[0].children;
    forall i | 0 <= i < |params|
      ensures DeclaredAt(node.scope.value, params[i], ParameterKind, 1 + i)
    {
      assert DeclaredAt(body.current, params[i], ParameterKind, 1 + i);
    }
  }

  /** A token stream holding only the end marker is an empty program. */
  lemma EmptyProgram(toks: seq<Token>)
    requires |toks| == 1 && toks[0].kind == Eof
    ensures ParseProgram(toks) == Ok((CreateNode(ProgramNode, None), Initial()))
  {
  }

  /** A program may not start with anything but `function`, `begin` or the
      end marker. */
  lemma TopLevelRejects(toks: seq<Token>, st: PState, program: Node)
    requires Ready(toks, st) && !Check(toks, st, Eof) && !Check(toks, st, Function) && !Check(toks, st, Begin)
    ensures TopLevelItems(toks, st, program) == Err(ExpectedTopLevel)
  {
  }

  /** The main block ends the program: anything after its `end` other than
      the end marker is reported with its text. */
  lemma TrailingAfterMain(toks: seq<Token>, st: PState, main: Node, s: PState)
    requires Ready(toks, st) && Check(toks, st, Begin) && ProgramBlock(toks, st) == Ok((main, s))
    requires !Check(toks, s, Eof)
    ensures Parse(toks, st) == Err(TrailingTokens(Peek(toks, s).lexeme))
  {
    assert TopLevel(toks, st) == Ok((WithChild(CreateNode(ProgramNode, None), main), s));
  }

  /** parse_TopLevel's loop keeps the program node's kind, text and owned
      scope, and the items already there stay first. */
  lemma {:induction false} TopLevelItemsKeep(toks: seq<Token>, st: PState, program: Node, root: Node, s: PState)
    requires Ready(toks, st) && TopLevelItems(toks, st, program) == Ok((root, s))
    ensures root.kind == program.kind && root.value == program.value && root.scope == program.scope
    ensures |program.children| <= |root.children| && root.children[..|program.children|] == program.children
    decreases |toks| - st.pos
  {
    if Check(toks, st, Eof) {
      assert root == program;
    } else if Check(toks, st, Function) {
      var f := FunctionDeclaration(toks, st).value;
      var more := WithChild(program, f.0);
      TopLevelItemsKeep(toks, f.1, more, root, s);
      PrefixOfPrefix(program.children, more.children, root.children);
    } else {
      var mn, ms := TopLevelMainStep(toks, st, program);
    }
  }

  /** One round of parse_TopLevel's loop at `function`: a function
      declaration, appended to the program, then the loop again from the
      state the function leaves, whose next address is not reset (so a main
      block goes on numbering from it). */
  lemma TopLevelFunctionStep(toks: seq<Token>, st: PState, program: Node) returns (fn: Node, fs: PState)
    requires Ready(toks, st) && Check(toks, st, Function) && TopLevelItems(toks, st, program).Ok?
    ensures FunctionDeclaration(toks, st) == Ok((fn, fs)) && 1 <= fs.next
    ensures Ready(toks, fs) && st.pos < fs.pos && fn.kind == FuncDeclNode
    ensures TopLevelItems(toks, st, program) == TopLevelItems(toks, fs, WithChild(program, fn))
  {
    var f := FunctionDeclaration(toks, st).value;
    FunctionDeclarationNode(toks, st, f.0, f.1);
    fn, fs := f.0, f.1;
  }

  /** parse_TopLevel's loop at `begin`: the main block, appended to the
      program, ends the loop. */
  lemma TopLevelMainStep(toks: seq<Token>, st: PState, program: Node) returns (mn: Node, ms: PState)
    requires Ready(toks, st) && !Check(toks, st, Eof) && !Check(toks, st, Function)
    requires TopLevelItems(toks, st, program).Ok?
    ensures mn.kind == BlockNode && TopLevelItems(toks, st, program) == Ok((WithChild(program, mn), ms))
  {
    var main := ProgramBlock(toks, st).value;
    ProgramBlockNode(toks, st);
    mn, ms := main.0, main.1;
  }

  /** The items parse_TopLevel adds are function declarations, except that
      the last may be the main block. */
  lemma {:induction false} TopLevelItemsShape(toks: seq<Token>, st: PState, program: Node, root: Node, s: PState)
    requires Ready(toks, st) && TopLevelItems(toks, st, program) == Ok((root, s))
    ensures forall i :: |program.children| <= i < |root.children| ==>
      root.children[i].kind == FuncDeclNode || (i == |root.children| - 1 && root.children[i].kind == BlockNode)
    decreases |toks| - st.pos
  {
    if Check(toks, st, Eof) {
      assert root == program;
    } else if Check(toks, st, Function) {
      var fn, fs := TopLevelFunctionStep(toks, st, program);
      var more := WithChild(program, fn);
      TopLevelItemsKeep(toks, fs, more, root, s);
      TopLevelItemsShape(toks, fs, more, root, s);
      var k := |program.children|;
      forall i | k <= i < |root.children|
        ensures root.children[i].kind == FuncDeclNode || (i == |root.children| - 1 && root.children[i].kind == BlockNode)
      {
        if i == k {
          assert root.children[k] == root.children[..|more.children|][k];
        }
      }
    } else {
      var mn, ms := TopLevelMainStep(toks, st, program);
      assert root.children == program.children + [mn];
    }
  }

  /** A whole program is a PROGRAM node whose children are function
      declarations, possibly followed by the main block, and all of the input
      has been read. */
  lemma ProgramShape(toks: seq<Token>, root: Node, s: PState)
    requires 0 < |toks| && toks[|toks| - 1].kind == Eof && ParseProgram(toks) == Ok((root, s))
    ensures root.kind == ProgramNode && root.value == None && root.scope == None
    ensures forall i :: 0 <= i < |root.children| ==>
      root.children[i].kind == FuncDeclNode || (i == |root.children| - 1 && root.children[i].kind == BlockNode)
    ensures Check(toks, s, Eof)
  {
    var program := CreateNode(ProgramNode, None);
    assert TopLevelItems(toks, Initial(), program) == Ok((root, s));
    TopLevelItemsKeep(toks, Initial(), program, root, s);
    TopLevelItemsShape(toks, Initial(), program, root, s);
  }
}
