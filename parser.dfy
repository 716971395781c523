/** The parser as the source runs it (src/parser.c): a ParserState object
    whose cursor, current scope and next address are updated in place, with
    declarations inserted into the hash-table scopes of module SymTab.

    Every method is proved to compute what the reference parser of module
    Grammar computes from the state the method starts in: the same error, or
    the same node and exactly the state Grammar leaves. */
module Parser {
  import opened Wrappers
  import opened Tokens
  import opened SymTab
  import opened Ast
  import opened Grammar

  /** A method's result agrees with the reference parser's `spec`, given the
      state `now` the method leaves behind. */
  ghost predicate Agrees<T>(r: Result<T, ParseError>, spec: Parsed<T>, now: PState) {
    match spec
    case Err(e) => r == Err(e)
    case Ok((v, s)) => r == Ok(v) && now == s
  }

  /** No two scopes of `ss` share their bucket array. */
  ghost predicate Disjoint(ss: seq<Scope>) {
    ss == [] || (ss[0].buckets !in BucketsOf(ss[1..]) && Disjoint(ss[1..]))
  }

  /** `c` heads a linked chain whose enclosing scopes are valid, hold the
      tables `outer` (innermost first), and share no buckets with `c` or with
      each other. Inserting into `c` keeps this true, since it reads only the
      enclosing scopes. */
  ghost predicate Enclosed(c: Scope, outer: seq<Table>)
    reads BucketsOf(c.ancestors)
  {
    && c.Linked()
    && (forall s :: s in c.ancestors ==> s.Valid())
    && c.buckets !in BucketsOf(c.ancestors)
    && Disjoint(c.ancestors)
    && outer == Views(c.ancestors)
  }

  /** A fresh scope entered from `c` is enclosed by `c` and its ancestors. */
  lemma EnclosedChild(inner: Scope, c: Scope, outer: seq<Table>)
    requires c.Valid() && Enclosed(c, outer)
    requires inner.Linked() && inner.parent == c
    requires inner.buckets != c.buckets && inner.buckets !in BucketsOf(c.ancestors)
    ensures Enclosed(inner, [c.View()] + outer)
  {
    assert inner.ancestors == [c] + c.ancestors;
    assert inner.ancestors[1..] == c.ancestors;
    assert BucketsOf(inner.ancestors) == {c.buckets} + BucketsOf(c.ancestors);
  }

  /** The parent of a scope is valid and enclosed by the rest of the chain. */
  lemma EnclosedParent(c: Scope, outer: seq<Table>)
    requires Enclosed(c, outer) && c.parent != null
    ensures |outer| > 0 && outer[0] == c.parent.View()
    ensures c.parent.Valid() && Enclosed(c.parent, outer[1..])
  {
    var p := c.parent;
    assert c.ancestors == [p] + p.ancestors;
    assert c.ancestors[1..] == p.ancestors;
    assert BucketsOf(c.ancestors) == {p.buckets} + BucketsOf(p.ancestors);
    assert p in c.ancestors;
    assert forall s :: s in p.ancestors ==> s in c.ancestors;
  }

  /** The tables a lookup from `c` walks are `c`'s own followed by `outer`. */
  lemma ChainViews(c: Scope, outer: seq<Table>)
    requires c.Valid() && Enclosed(c, outer)
    ensures ChainValid(c)
    ensures Views(Chain(c)) == [c.View()] + outer
  {
    assert Chain(c)[1..] == c.ancestors;
  }

  /** ParserState: the token array, the cursor into it, the scope
      declarations go into, and the next address to hand out. */
  class ParserState {
    const tokens: seq<Token>
    var current: nat
    var currentScope: Scope
    var nextAddress: int
    /** The tables of the scopes enclosing the current one. */
    ghost var outer: seq<Table>

    /** The cursor is on a token of a stream that ends with the end marker,
        the current scope is valid, and `outer` holds the tables of the scopes
        enclosing it. */
    ghost predicate Valid()
      reads this, currentScope.buckets, BucketsOf(currentScope.ancestors)
    {
      && 0 < |tokens| && tokens[|tokens| - 1].kind == Eof && current < |tokens|
      && currentScope.Valid()
      && Enclosed(currentScope, outer)
    }

    /** The state as the reference parser sees it. */
    ghost function Snap(): PState
      reads this, currentScope.buckets, BucketsOf(currentScope.ancestors)
      requires Valid()
    {
      PState(current, currentScope.View(), outer, nextAddress)
    }

    /** The setup of the driver (main.c): the first token, a fresh global
        scope, address 0. */
    constructor (tokens: seq<Token>)
      requires 0 < |tokens| && tokens[|tokens| - 1].kind == Eof
      ensures Valid() && this.tokens == tokens && fresh(currentScope.buckets)
      ensures Snap() == Initial()
    {
      this.tokens := tokens;
      current := 0;
      nextAddress := 0;
      var global := new Scope.Create();
      currentScope := global;
      outer := [];
    }

    /** peek */
    function Peek(): Token
      reads this
      requires current < |tokens|
    {
      tokens[current]
    }

    /** check */
    predicate Check(kind: TokenKind)
      reads this
      requires current < |tokens|
    {
      tokens[current].kind == kind
    }

    /** advance: its bound test never fails because no caller advances past
        the end marker. */
    method Advance()
      requires Valid() && tokens[current].kind != Eof
      modifies this
      ensures Valid() && currentScope == old(currentScope) && outer == old(outer)
      ensures Snap() == Grammar.Advance(tokens, old(Snap()))
    {
      if current < |tokens| {
        current := current + 1;
      }
    }

    /** consume */
    method Consume(kind: TokenKind) returns (r: Result<Token, ParseError>)
      requires Valid() && kind != Eof
      modifies this
      ensures Valid() && currentScope == old(currentScope) && outer == old(outer)
      ensures Agrees(r, Grammar.Consume(tokens, old(Snap()), kind), Snap())
    {
      if Check(kind) {
        var t := Peek();
        Advance();
        return Ok(t);
      }
      return Err(Expected(kind, Peek()));
    }

    /** parse_Type */
    method ParseType() returns (r: Result<DataType, ParseError>)
      requires Valid()
      modifies this
      ensures Valid() && currentScope == old(currentScope) && outer == old(outer)
      ensures Agrees(r, Grammar.ParseType(tokens, old(Snap())), Snap())
    {
      if Check(Int) {
        Advance();
        return Ok(IntegerType);
      }
      if Check(Float) {
        Advance();
        return Ok(FloatType);
      }
      return Err(ExpectedType);
    }

    /** scope_lookup from the current scope. */
    method Lookup(name: string) returns (r: Option<Symbol>)
      requires Valid()
      ensures r == Resolve(Scopes(Snap()), name)
    {
      ChainViews(currentScope, outer);
      r := SymTab.Lookup(currentScope, name);
    }

    // -------------------------------------------------------------------------
    // Expressions: they move the cursor and nothing else.

    /** parse_ArgumentList */
    method ArgumentList() returns (r: Result<Node, ParseError>)
      requires Valid()
      modifies this
      ensures Valid() && currentScope == old(currentScope) && outer == old(outer)
      ensures Agrees(r, Grammar.ArgumentList(tokens, old(Snap())), Snap())
      decreases |tokens| - current, 4
    {
      var args := CreateNode(ArgListNode, None);
      var open :- Consume(LParen);
      if !Check(RParen) {
        ghost var first := Snap();
        while true
          invariant Valid() && currentScope == old(currentScope) && outer == old(outer) && old(current) < current
          invariant Grammar.ArgItems(tokens, first, CreateNode(ArgListNode, None)) == Grammar.ArgItems(tokens, Snap(), args)
          decreases |tokens| - current
        {
          var e :- Expression();
          args := WithChild(args, e);
          if !Check(Comma) {
            break;
          }
          Advance();
        }
      }
      var close :- Consume(RParen);
      return Ok(args);
    }

    /** parse_Factor */
    method Factor() returns (r: Result<Node, ParseError>)
      requires Valid()
      modifies this
      ensures Valid() && currentScope == old(currentScope) && outer == old(outer)
      ensures Agrees(r, Grammar.Factor(tokens, old(Snap())), Snap())
      decreases |tokens| - current, 1
    {
      match FactorStart(tokens, current)
      case CallFactor => r := Call();
      case VariableFactor => r := Variable();
      case IntegerFactor =>
        var literal := Peek();
        Advance();
        r := Ok(CreateNode(IntLiteralNode, Some(literal.lexeme)));
      case FloatFactor =>
        var literal := Peek();
        Advance();
        r := Ok(CreateNode(FloatLiteralNode, Some(literal.lexeme)));
      case NestedFactor => r := Parenthesised();
      case InvalidFactor => r := Err(UnexpectedInExpression);
    }

    /** The identifier branch of parse_Factor. */
    method Variable() returns (r: Result<Node, ParseError>)
      requires Valid() && Check(Identifier)
      modifies this
      ensures Valid() && currentScope == old(currentScope) && outer == old(outer)
      ensures Agrees(r, Grammar.Variable(tokens, old(Snap())), Snap())
    {
      var id := Peek();
      Advance();
      var sym := Lookup(id.lexeme);
      if sym.None? {
        return Err(UndeclaredVariable(id.lexeme));
      }
      return Ok(CreateNode(IdentifierNode, Some(id.lexeme)));
    }

    /** The parenthesised branch of parse_Factor. */
    method Parenthesised() returns (r: Result<Node, ParseError>)
      requires Valid() && Check(LParen)
      modifies this
      ensures Valid() && currentScope == old(currentScope) && outer == old(outer)
      ensures Agrees(r, Grammar.Parenthesised(tokens, old(Snap())), Snap())
      decreases |tokens| - current, 0
    {
      Advance();
      var expr :- Expression();
      var close :- Consume(RParen);
      return Ok(expr);
    }

    /** The call branch of parse_Factor. */
    method Call() returns (r: Result<Node, ParseError>)
      requires Valid() && Check(Identifier)
      modifies this
      ensures Valid() && currentScope == old(currentScope) && outer == old(outer)
      ensures Agrees(r, Grammar.Call(tokens, old(Snap())), Snap())
      decreases |tokens| - current, 0
    {
      var id := Peek();
      Advance();
      var sym := Lookup(id.lexeme);
      if sym.None? || (sym.value.kind != FunctionKind && sym.value.kind != ProcedureKind) {
        return Err(NotCallable(id.lexeme));
      }
      var call := CreateNode(FuncCallNode, Some(id.lexeme));
      var args :- ArgumentList();
      return Ok(WithChild(call, args));
    }

    /** parse_Term */
    method Term() returns (r: Result<Node, ParseError>)
      requires Valid()
      modifies this
      ensures Valid() && currentScope == old(currentScope) && outer == old(outer)
      ensures Agrees(r, Grammar.Term(tokens, old(Snap())), Snap())
      decreases |tokens| - current, 2
    {
      if Check(Minus) {
        r := Negation();
        return;
      }
      ghost var s0 := Snap();
      var node :- Factor();
      while IsTermOperator(Peek().kind)
        invariant Valid() && currentScope == old(currentScope) && outer == old(outer) && old(current) < current
        invariant Grammar.Term(tokens, s0) == Grammar.TermTail(tokens, Snap(), node)
        decreases |tokens| - current
      {
        var op := Peek();
        Advance();
        var right :- Factor();
        node := Binary(ProductKind(op.kind), node, right);
      }
      return Ok(node);
    }

    /** The `-` branch of parse_Term. */
    method Negation() returns (r: Result<Node, ParseError>)
      requires Valid() && Check(Minus)
      modifies this
      ensures Valid() && currentScope == old(currentScope) && outer == old(outer)
      ensures Agrees(r, Grammar.Negation(tokens, old(Snap())), Snap())
      decreases |tokens| - current, 0
    {
      Advance();
      var operand :- Factor();
      return Ok(WithChild(CreateNode(NegateNode, None), operand));
    }

    /** parse_Expression */
    method Expression() returns (r: Result<Node, ParseError>)
      requires Valid()
      modifies this
      ensures Valid() && currentScope == old(currentScope) && outer == old(outer)
      ensures Agrees(r, Grammar.Expression(tokens, old(Snap())), Snap())
      decreases |tokens| - current, 3
    {
      var node :- Term();
      while IsExpressionOperator(Peek().kind)
        invariant Valid() && currentScope == old(currentScope) && outer == old(outer) && old(current) < current
        invariant Grammar.Expression(tokens, old(Snap())) == Grammar.ExprTail(tokens, Snap(), node)
        decreases |tokens| - current
      {
        var op := Peek();
        Advance();
        var right :- Term();
        node := Binary(BinaryKind(op.kind), node, right);
      }
      return Ok(node);
    }

    // -------------------------------------------------------------------------
    // Statements: they may also declare into the current scope.

    /** scope_insert into the current scope. */
    method Declare(sym: Symbol) returns (r: Outcome<ParseError>)
      requires Valid()
      modifies currentScope.buckets
      ensures Valid()
      ensures match Grammar.Declare(old(Snap()).current, sym)
        case Ok(t) => r == Pass && Snap() == old(Snap()).(current := t)
        case Err(e) => r == Fail(e)
    {
      var inserted := currentScope.Insert(sym.name, sym.kind, sym.dtype, sym.line, sym.address);
      if inserted.Fail? {
        return Fail(Redeclared(sym.name, sym.line));
      }
      return Pass;
    }

    /** scope_insert into the current scope with `next_address++`: the address
        is used up whether or not the insertion succeeds. */
    method DeclareNext(name: string, kind: SymbolKind, dtype: DataType, line: int) returns (r: Outcome<ParseError>)
      requires Valid()
      modifies this, currentScope.buckets
      ensures Valid() && currentScope == old(currentScope) && outer == old(outer)
      ensures match Grammar.DeclareNext(old(Snap()), name, kind, dtype, line)
        case Ok(s) => r == Pass && Snap() == s
        case Err(e) => r == Fail(e)
    {
      var inserted := currentScope.Insert(name, kind, dtype, line, nextAddress);
      assert Enclosed(currentScope, outer);
      nextAddress := nextAddress + 1;
      if inserted.Fail? {
        return Fail(Redeclared(name, line));
      }
      return Pass;
    }

    /** parse_Declaration: the symbol is inserted, and the next address taken,
        before any initialiser is read. */
    method Declaration() returns (r: Result<Node, ParseError>)
      requires Valid()
      modifies this, currentScope.buckets
      ensures Valid() && currentScope == old(currentScope) && outer == old(outer)
      ensures Agrees(r, Grammar.Declaration(tokens, old(Snap())), Snap())
      decreases |tokens| - current, 4
    {
      var ty :- ParseType();
      var id :- Consume(Identifier);
      var declared := DeclareNext(id.lexeme, VariableKind, ty, id.line);
      if declared.Fail? {
        return Err(declared.error);
      }
      var decl := CreateNode(DeclarationNode, Some(id.lexeme));
      if Check(Assign) {
        Advance();
        var e :- Expression();
        var assign := WithChild(CreateNode(AssignmentNode, Some(id.lexeme)), e);
        return Ok(Binary(DeclAssignNode, decl, assign));
      }
      return Ok(decl);
    }

    /** parse_ReturnStatement */
    method ReturnStatement() returns (r: Result<Node, ParseError>)
      requires Valid()
      modifies this
      ensures Valid() && currentScope == old(currentScope) && outer == old(outer)
      ensures Agrees(r, Grammar.ReturnStatement(tokens, old(Snap())), Snap())
      decreases |tokens| - current, 4
    {
      var keyword :- Consume(Return);
      var ret := CreateNode(ReturnNode, None);
      var e :- Expression();
      var semicolon :- Consume(Semicolon);
      return Ok(WithChild(ret, e));
    }

    /** parse_Conditional */
    method Conditional() returns (r: Result<Node, ParseError>)
      requires Valid()
      modifies this, currentScope.buckets
      ensures Valid() && currentScope == old(currentScope) && outer == old(outer)
      ensures Agrees(r, Grammar.Conditional(tokens, old(Snap())), Snap())
      decreases |tokens| - current, 4
    {
      var keyword :- Consume(If);
      var cond := CreateNode(ConditionalNode, None);
      var e :- Expression();
      var thenKeyword :- Consume(Then);
      var yes :- ProgramBlock();
      cond := WithChild(WithChild(cond, e), yes);
      if Check(Else) {
        Advance();
        var no :- ProgramBlock();
        cond := WithChild(cond, no);
        var endElse :- Consume(EndElse);
      }
      var endIf :- Consume(EndIf);
      return Ok(cond);
    }

    /** parse_Loop */
    method Loop() returns (r: Result<Node, ParseError>)
      requires Valid()
      modifies this, currentScope.buckets
      ensures Valid() && currentScope == old(currentScope) && outer == old(outer)
      ensures Agrees(r, Grammar.Loop(tokens, old(Snap())), Snap())
      decreases |tokens| - current, 4
    {
      var keyword :- Consume(While);
      var loop := CreateNode(LoopNode, None);
      var e :- Expression();
      var doKeyword :- Consume(Do);
      var body :- ProgramBlock();
      var endWhile :- Consume(EndWhile);
      return Ok(WithChild(WithChild(loop, e), body));
    }

    /** parse_Statement */
    method Statement() returns (r: Result<Node, ParseError>)
      requires Valid()
      modifies this, currentScope.buckets
      ensures Valid() && currentScope == old(currentScope) && outer == old(outer)
      ensures Agrees(r, Grammar.Statement(tokens, old(Snap())), Snap())
      decreases |tokens| - current, 6
    {
      match StatementStart(tokens, current)
      case IfForm => r := Conditional();
      case WhileForm => r := Loop();
      case ReturnForm => r := ReturnStatement();
      case InputOutputForm => r := InputOutput();
      case DeclarationForm => r := DeclarationStatement();
      case CallForm => r := CallStatement();
      case AssignmentForm => r := Assignment();
      case InvalidForm => r := Err(InvalidStatement(Peek().line));
    }

    /** The `print` and `scan` branches of parse_Statement. */
    method InputOutput() returns (r: Result<Node, ParseError>)
      requires Valid() && (Check(Print) || Check(Scan))
      modifies this
      ensures Valid() && currentScope == old(currentScope) && outer == old(outer)
      ensures Agrees(r, Grammar.InputOutput(tokens, old(Snap())), Snap())
      decreases |tokens| - current, 5
    {
      var node := CreateNode(if Check(Print) then PrintNode else ScanNode, None);
      Advance();
      var args :- ArgumentList();
      var semicolon :- Consume(Semicolon);
      return Ok(WithChild(node, args));
    }

    /** The declaration branch of parse_Statement. */
    method DeclarationStatement() returns (r: Result<Node, ParseError>)
      requires Valid()
      modifies this, currentScope.buckets
      ensures Valid() && currentScope == old(currentScope) && outer == old(outer)
      ensures Agrees(r, Grammar.DeclarationStatement(tokens, old(Snap())), Snap())
      decreases |tokens| - current, 5
    {
      var decl :- Declaration();
      var semicolon :- Consume(Semicolon);
      return Ok(decl);
    }

    /** The procedure-call branch of parse_Statement. */
    method CallStatement() returns (r: Result<Node, ParseError>)
      requires Valid()
      modifies this
      ensures Valid() && currentScope == old(currentScope) && outer == old(outer)
      ensures Agrees(r, Grammar.CallStatement(tokens, old(Snap())), Snap())
      decreases |tokens| - current, 5
    {
      var call :- Factor();
      var semicolon :- Consume(Semicolon);
      return Ok(call);
    }

    /** The assignment branch of parse_Statement: the target must resolve
        before `=` is read. */
    method Assignment() returns (r: Result<Node, ParseError>)
      requires Valid() && Check(Identifier)
      modifies this
      ensures Valid() && currentScope == old(currentScope) && outer == old(outer)
      ensures Agrees(r, Grammar.Assignment(tokens, old(Snap())), Snap())
      decreases |tokens| - current, 4
    {
      var id := Peek();
      Advance();
      var sym := Lookup(id.lexeme);
      if sym.None? {
        return Err(UndeclaredAssignment(id.lexeme));
      }
      var equals :- Consume(Assign);
      var e :- Expression();
      var semicolon :- Consume(Semicolon);
      return Ok(WithChild(CreateNode(AssignmentNode, Some(id.lexeme)), e));
    }

    /** parse_ProgramBlock */
    method ProgramBlock() returns (r: Result<Node, ParseError>)
      requires Valid()
      modifies this, currentScope.buckets
      ensures Valid() && currentScope == old(currentScope) && outer == old(outer)
      ensures Agrees(r, Grammar.ProgramBlock(tokens, old(Snap())), Snap())
      decreases |tokens| - current, 7
    {
      var block := CreateNode(BlockNode, None);
      var begin :- Consume(Begin);
      ghost var first := Snap();
      while !Check(End)
        invariant Valid() && currentScope == old(currentScope) && outer == old(outer) && old(current) < current
        invariant Grammar.BlockItems(tokens, first, CreateNode(BlockNode, None)) == Grammar.BlockItems(tokens, Snap(), block)
        decreases |tokens| - current
      {
        var s :- Statement();
        block := WithChild(block, s);
      }
      Advance();
      return Ok(block);
    }

    // -------------------------------------------------------------------------
    // Functions and the program

    /** parse_ParameterList: each parameter is declared in the current scope
        with the next address as soon as its name is read. */
    method ParameterList() returns (r: Result<Node, ParseError>)
      requires Valid()
      modifies this, currentScope.buckets
      ensures Valid() && currentScope == old(currentScope) && outer == old(outer)
      ensures Agrees(r, Grammar.ParameterList(tokens, old(Snap())), Snap())
    {
      var params := CreateNode(ParamListNode, None);
      var open :- Consume(LParen);
      if !Check(RParen) {
        ghost var first := Snap();
        while true
          invariant Valid() && currentScope == old(currentScope) && outer == old(outer) && old(current) < current
          invariant Grammar.ParamItems(tokens, first, CreateNode(ParamListNode, None)) == Grammar.ParamItems(tokens, Snap(), params)
          decreases |tokens| - current
        {
          var dtype :- ParseType();
          var id :- Consume(Identifier);
          var declared := DeclareNext(id.lexeme, ParameterKind, dtype, id.line);
          if declared.Fail? {
            return Err(declared.error);
          }
          params := WithChild(params, CreateNode(ParamNode, Some(id.lexeme)));
          if !Check(Comma) {
            break;
          }
          Advance();
        }
      }
      var close :- Consume(RParen);
      return Ok(params);
    }

    /** scope_enter for a function: a fresh, empty scope inside the current
        one becomes current, and addresses start again from 1. */
    method EnterScope()
      requires Valid()
      modifies this
      ensures Valid() && fresh(currentScope.buckets) && currentScope.parent == old(currentScope)
      ensures Snap() == PState(old(current), EmptyTable(), [old(Snap()).current] + old(outer), 1)
    {
      var inner := new Scope.Enter(currentScope);
      Install(inner);
    }

    /** The second half of scope_enter: the fresh, empty scope `inner`, whose
        parent is the current scope, becomes current. */
    method Install(inner: Scope)
      requires Valid() && inner.Valid() && inner.Linked() && inner.parent == currentScope
      requires inner.buckets != currentScope.buckets && inner.buckets !in BucketsOf(currentScope.ancestors)
      modifies this
      ensures Valid() && currentScope == inner
      ensures Snap() == PState(old(current), inner.View(), [old(Snap()).current] + old(outer), 1)
    {
      ghost var table := currentScope.View();
      EnclosedChild(inner, currentScope, outer);
      outer := [table] + outer;
      currentScope := inner;
      nextAddress := 1;
    }

    /** The return to the enclosing scope after a function body: its parent
        becomes current again. */
    method LeaveScope()
      requires Valid() && currentScope.parent != null
      modifies this
      ensures Valid() && currentScope == old(currentScope.parent)
      ensures |old(outer)| > 0
      ensures Snap() == old(Snap()).(current := old(outer)[0], outer := old(outer)[1..])
    {
      ghost var before := Snap();
      EnclosedParent(currentScope, outer);
      var parent := currentScope.parent;
      assert parent.View() == outer[0];
      outer := outer[1..];
      currentScope := parent;
      assert Snap() == before.(current := parent.View(), outer := outer);
    }

    /** parse_FunctionDeclaration */
    method FunctionDeclaration() returns (r: Result<Node, ParseError>)
      requires Valid()
      modifies this, currentScope.buckets
      ensures Valid()
      ensures r.Ok? ==> currentScope == old(currentScope) && outer == old(outer)
      ensures Agrees(r, Grammar.FunctionDeclaration(tokens, old(Snap())), Snap())
    {
      var keyword :- Consume(Function);
      var returnType :- ParseType();
      var id :- Consume(Identifier);
      r := FunctionScope(Symbol(id.lexeme, FunctionKind, returnType, id.line, 0));
    }

    /** The scope of parse_FunctionDeclaration. */
    method FunctionScope(func: Symbol) returns (r: Result<Node, ParseError>)
      requires Valid()
      modifies this, currentScope.buckets
      ensures Valid()
      ensures r.Ok? ==> currentScope == old(currentScope) && outer == old(outer)
      ensures Agrees(r, Grammar.FunctionScope(tokens, old(Snap()), func), Snap())
    {
      var declared := Declare(func);
      if declared.Fail? {
        return Err(declared.error);
      }
      r := InFunctionScope(CreateNode(FuncDeclNode, Some(func.name)));
    }

    /** scope_enter, the parts of the function, scope_exit: the parts are read
        in a fresh, empty scope whose parent is the current one, with
        addresses from 1, and the current scope is restored afterwards. */
    method InFunctionScope(func: Node) returns (r: Result<Node, ParseError>)
      requires Valid()
      modifies this, currentScope.buckets
      ensures Valid()
      ensures r.Ok? ==> currentScope == old(currentScope) && outer == old(outer)
      ensures var inner := PState(old(current), EmptyTable(), [old(Snap()).current] + old(outer), 1);
        match Grammar.FunctionParts(tokens, inner, func)
        case Err(e) => r == Err(e)
        case Ok((node, f)) => r == Ok(node) && Snap() == PState(f.pos, f.outer[0], f.outer[1..], f.next)
    {
      EnterScope();
      var node :- FunctionParts(func);
      LeaveScope();
      return Ok(node);
    }

    /** The part of parse_FunctionDeclaration inside the function's scope. */
    method FunctionParts(func: Node) returns (r: Result<Node, ParseError>)
      requires Valid()
      modifies this, currentScope.buckets
      ensures Valid() && currentScope == old(currentScope) && outer == old(outer)
      ensures Agrees(r, Grammar.FunctionParts(tokens, old(Snap()), func), Snap())
    {
      var params :- ParameterList();
      var body :- ProgramBlock();
      return Ok(WithChild(WithChild(func, params), body).(scope := Some(currentScope.buckets[..])));
    }

    /** parse_TopLevel: function declarations until the end marker, or a
        `begin` block, after which the loop stops. */
    method TopLevel() returns (r: Result<Node, ParseError>)
      requires Valid()
      modifies this, currentScope.buckets
      ensures Valid()
      ensures r.Ok? ==> currentScope == old(currentScope) && outer == old(outer)
      ensures Agrees(r, Grammar.TopLevel(tokens, old(Snap())), Snap())
    {
      var program := CreateNode(ProgramNode, None);
      ghost var first := Snap();
      while !Check(Eof)
        invariant Valid() && currentScope == old(currentScope) && outer == old(outer)
        invariant Grammar.TopLevelItems(tokens, first, CreateNode(ProgramNode, None)) == Grammar.TopLevelItems(tokens, Snap(), program)
        decreases |tokens| - current
      {
        if Check(Function) {
          var f :- FunctionDeclaration();
          program := WithChild(program, f);
        } else if Check(Begin) {
          var main :- ProgramBlock();
          program := WithChild(program, main);
          break;
        } else {
          return Err(ExpectedTopLevel);
        }
      }
      return Ok(program);
    }

    /** parse: the program must be followed by the end marker. */
    method Parse() returns (r: Result<Node, ParseError>)
      requires Valid()
      modifies this, currentScope.buckets
      ensures Valid()
      ensures Agrees(r, Grammar.Parse(tokens, old(Snap())), Snap())
    {
      var root :- TopLevel();
      if !Check(Eof) {
        return Err(TrailingTokens(Peek().lexeme));
      }
      return Ok(root);
    }
  }

  /** The driver's use of the parser (main.c): a state on the token array with
      a fresh global scope and address 0, then parse. The tree, or the error,
      is the one the reference parser gives. */
  method ParseTokens(tokens: seq<Token>) returns (r: Result<Node, ParseError>)
    requires 0 < |tokens| && tokens[|tokens| - 1].kind == Eof
    ensures match ParseProgram(tokens)
      case Ok((root, _)) => r == Ok(root)
      case Err(e) => r == Err(e)
  {
    var state := new ParserState(tokens);
    r := state.Parse();
  }
}
