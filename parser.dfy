/**
  The Parser class of src/InterpreterAlpha/Parser.java: a token stream, the
  current token, and one method per grammar rule that eats tokens and builds
  the tree. Every method is proved to do exactly what the matching rule
  function of module Grammar says, from the state it was called in to the
  state it leaves behind; the Java exceptions are the Err results.
*/
module Parsing {
  import opened Results
  import opened Tokens
  import Ast
  import opened Grammar

  class Parser {
    /** Stands for the lexer: the tokens get_next_token would return. */
    const input: Stream
    /** How many tokens were taken from the lexer so far. */
    var next: nat
    var currentToken: Token

    function State(): PState
      reads this
    {
      PState(input, next, currentToken)
    }

    constructor Init(input: Stream, first: Token)
      ensures State() == PState(input, 1, first)
    {
      this.input := input;
      next := 1;
      currentToken := first;
    }

    /** new Parser(lexer): fails when the lexer's first token does. */
    static method Create(input: Stream) returns (r: Result<Parser, ParseError>)
      ensures r.Ok? <==> Start(input).Ok?
      ensures r.Ok? ==> fresh(r.value) && r.value.State() == Start(input).value
      ensures r.Err? ==> Start(input) == Err(r.error)
    {
      var first := Fetch(input, 0);
      if first.Err? {
        return Err(first.error);
      }
      var p := new Parser.Init(input, first.value);
      return Ok(p);
    }

    /** Advances to the next token when the current one has kind k, else "Invalid syntax!". */
    method Eat(k: TokenKind) returns (r: Outcome<ParseError>)
      modifies this
      ensures Grammar.Eat(old(State()), k) == if r.Pass? then Ok(State()) else Err(r.error)
    {
      if currentToken.kind == k {
        var t := Fetch(input, next);
        if t.Err? {
          return Fail(t.error);
        }
        currentToken := t.value;
        next := next + 1;
        return Pass;
      }
      return Fail(SyntaxError);
    }

    // -------------------------------------------------------------------------
    // Expressions

    method Variable() returns (r: Result<Ast.VarNode, ParseError>)
      modifies this
      ensures Returned(r, State()) == ParseVariable(old(State()))
    {
      var node := Ast.VarNode(currentToken);
      var e := Eat(ID);
      if e.Fail? {
        return Err(e.error);
      }
      return Ok(node);
    }

    method Factor() returns (r: Result<Ast.Ast, ParseError>)
      modifies this
      decreases Measure(State()), 0
      ensures Returned(r, State()) == ParseFactor(old(State()))
    {
      var token := currentToken;
      if token.kind == PLUS || token.kind == MINUS {
        var e := Eat(token.kind);
        if e.Fail? {
          return Err(e.error);
        }
        var f := Factor();
        if f.Err? {
          return Err(f.error);
        }
        return Ok(Ast.UnaryOp(token, f.value));
      } else if token.kind == INTEGER_CONST || token.kind == REAL_CONST {
        var e := Eat(token.kind);
        if e.Fail? {
          return Err(e.error);
        }
        return Ok(Ast.Num(token));
      } else if token.kind == LPAREN {
        var e := Eat(LPAREN);
        if e.Fail? {
          return Err(e.error);
        }
        var node := Expr();
        if node.Err? {
          return node;
        }
        e := Eat(RPAREN);
        if e.Fail? {
          return Err(e.error);
        }
        return node;
      }
      var v := Variable();
      if v.Err? {
        return Err(v.error);
      }
      return Ok(Ast.Var(v.value));
    }

    method Term() returns (r: Result<Ast.Ast, ParseError>)
      modifies this
      decreases Measure(State()), 1
      ensures Returned(r, State()) == ParseTerm(old(State()))
    {
      var f := Factor();
      if f.Err? {
        return f;
      }
      var node := f.value;
      while IsMulOp(currentToken.kind)
        invariant Measure(State()) < Measure(old(State()))
        invariant TermLoop(node, State()) == ParseTerm(old(State()))
        decreases Measure(State())
      {
        var token := currentToken;
        var e;
        if token.kind == MUL {
          e := Eat(MUL);
        } else if token.kind == INTEGER_DIV {
          e := Eat(INTEGER_DIV);
        } else {
          e := Eat(FLOAT_DIV);
        }
        if e.Fail? {
          return Err(e.error);
        }
        var right := Factor();
        if right.Err? {
          return right;
        }
        node := Ast.BinOp(node, token, right.value);
      }
      return Ok(node);
    }

    method Expr() returns (r: Result<Ast.Ast, ParseError>)
      modifies this
      decreases Measure(State()), 2
      ensures Returned(r, State()) == ParseExpr(old(State()))
    {
      var t := Term();
      if t.Err? {
        return t;
      }
      var node := t.value;
      while IsAddOp(currentToken.kind)
        invariant Measure(State()) < Measure(old(State()))
        invariant !IsMulOp(currentToken.kind)
        invariant ExprLoop(node, State()) == ParseExpr(old(State()))
        decreases Measure(State())
      {
        var token := currentToken;
        var e;
        if token.kind == MINUS {
          e := Eat(MINUS);
        } else {
          e := Eat(PLUS);
        }
        if e.Fail? {
          return Err(e.error);
        }
        var right := Term();
        if right.Err? {
          return right;
        }
        node := Ast.BinOp(node, token, right.value);
      }
      return Ok(node);
    }

    // -------------------------------------------------------------------------
    // Statements

    method Empty() returns (r: Result<Ast.Ast, ParseError>)
      ensures Returned(r, State()) == ParseEmpty(State())
    {
      return Ok(Ast.NoOp);
    }

    method AssignStatement() returns (r: Result<Ast.Ast, ParseError>)
      modifies this
      ensures Returned(r, State()) == ParseAssignStatement(old(State()))
    {
      var left := Variable();
      if left.Err? {
        return Err(left.error);
      }
      var token := currentToken;
      var e := Eat(ASSIGN);
      if e.Fail? {
        return Err(e.error);
      }
      var right := Expr();
      if right.Err? {
        return right;
      }
      return Ok(Ast.Assign(left.value, token, right.value));
    }

    method CompoundStatement() returns (r: Result<Ast.CompoundNode, ParseError>)
      modifies this
      decreases Measure(State()), 0
      ensures Returned(r, State()) == ParseCompoundStatement(old(State()))
    {
      var e := Eat(BEGIN);
      if e.Fail? {
        return Err(e.error);
      }
      var nodes := StatementList();
      if nodes.Err? {
        return Err(nodes.error);
      }
      e := Eat(END);
      if e.Fail? {
        return Err(e.error);
      }
      return Ok(Ast.CompoundNode(nodes.value));
    }

    method StatementList() returns (r: Result<seq<Ast.Ast>, ParseError>)
      modifies this
      decreases Measure(State()), 2
      ensures Returned(r, State()) == ParseStatementList(old(State()))
    {
      var node := Statement();
      if node.Err? {
        return Err(node.error);
      }
      ghost var afterFirst := State();
      var results := [node.value];
      while currentToken.kind == SEMI
        invariant Measure(State()) <= Measure(afterFirst) <= Measure(old(State()))
        invariant StatementLoop(results, State()) == StatementLoop([node.value], afterFirst)
        decreases Measure(State())
      {
        var e := Eat(SEMI);
        if e.Fail? {
          return Err(e.error);
        }
        var another := Statement();
        if another.Err? {
          return Err(another.error);
        }
        results := results + [another.value];
      }
      if currentToken.kind == ID {
        return Err(SyntaxError);
      }
      return Ok(results);
    }

    method Statement() returns (r: Result<Ast.Ast, ParseError>)
      modifies this
      decreases Measure(State()), 1
      ensures Returned(r, State()) == ParseStatement(old(State()))
    {
      if currentToken.kind == BEGIN {
        var c := CompoundStatement();
        if c.Err? {
          return Err(c.error);
        }
        return Ok(Ast.Compound(c.value));
      } else if currentToken.kind == ID {
        r := AssignStatement();
      } else if currentToken.kind == FOR {
        r := ForStatement();
      } else {
        r := Empty();
      }
    }

    method ForStatement() returns (r: Result<Ast.Ast, ParseError>)
      modifies this
      decreases Measure(State()), 0
      ensures Returned(r, State()) == ParseForStatement(old(State()))
    {
      var e := Eat(FOR);
      if e.Fail? {
        return Err(e.error);
      }
      var variable := Variable();
      if variable.Err? {
        return Err(variable.error);
      }
      e := Eat(ASSIGN);
      if e.Fail? {
        return Err(e.error);
      }
      var start := currentToken;
      e := Eat(INTEGER_CONST);
      if e.Fail? {
        return Err(e.error);
      }
      e := Eat(TO);
      if e.Fail? {
        return Err(e.error);
      }
      var end := currentToken;
      e := Eat(INTEGER_CONST);
      if e.Fail? {
        return Err(e.error);
      }
      e := Eat(DO);
      if e.Fail? {
        return Err(e.error);
      }
      var compound := CompoundStatement();
      if compound.Err? {
        return Err(compound.error);
      }
      var endPoint := IntValue(end);
      if endPoint.Err? {
        return Err(endPoint.error);
      }
      var startPoint := IntValue(start);
      if startPoint.Err? {
        return Err(startPoint.error);
      }
      return Ok(Ast.ForStatement(compound.value, endPoint.value, startPoint.value, variable.value));
    }

    // -------------------------------------------------------------------------
    // Declarations and the program

    method TypeSpec() returns (r: Result<Ast.TypeNode, ParseError>)
      modifies this
      ensures Returned(r, State()) == ParseTypeSpec(old(State()))
    {
      var token := currentToken;
      var e;
      if currentToken.kind == INTEGER {
        e := Eat(INTEGER);
      } else {
        e := Eat(REAL);
      }
      if e.Fail? {
        return Err(e.error);
      }
      return Ok(Ast.TypeNode(token));
    }

    method VariableDeclaration() returns (r: Result<seq<Ast.VarDecl>, ParseError>)
      modifies this
      ensures Returned(r, State()) == ParseVariableDeclaration(old(State()))
    {
      var first := Ast.VarNode(currentToken);
      var varNodes := [first];
      var e := Eat(ID);
      if e.Fail? {
        return Err(e.error);
      }
      ghost var afterFirst := State();
      while currentToken.kind == COMMA
        invariant Measure(State()) <= Measure(afterFirst)
        invariant IdList(varNodes, State()) == IdList([first], afterFirst)
        decreases Measure(State())
      {
        e := Eat(COMMA);
        if e.Fail? {
          return Err(e.error);
        }
        varNodes := varNodes + [Ast.VarNode(currentToken)];
        e := Eat(ID);
        if e.Fail? {
          return Err(e.error);
        }
      }
      e := Eat(COLON);
      if e.Fail? {
        return Err(e.error);
      }
      var typeNode := TypeSpec();
      if typeNode.Err? {
        return Err(typeNode.error);
      }
      var declarations: seq<Ast.VarDecl> := [];
      for i := 0 to |varNodes|
        invariant |declarations| == i
        invariant forall j :: 0 <= j < i ==> declarations[j] == Ast.VarDecl(varNodes[j], typeNode.value)
      {
        declarations := declarations + [Ast.VarDecl(varNodes[i], typeNode.value)];
      }
      assert declarations == Declare(varNodes, typeNode.value);
      return Ok(declarations);
    }

    method Declarations() returns (r: Result<seq<Ast.VarDecl>, ParseError>)
      modifies this
      ensures Returned(r, State()) == ParseDeclarations(old(State()))
    {
      var declarations: seq<Ast.VarDecl> := [];
      if currentToken.kind == VAR {
        var e := Eat(VAR);
        if e.Fail? {
          return Err(e.error);
        }
        ghost var afterVar := State();
        while currentToken.kind == ID
          invariant Measure(State()) <= Measure(afterVar)
          invariant DeclarationLoop(declarations, State()) == DeclarationLoop([], afterVar)
          decreases Measure(State())
        {
          var decls := VariableDeclaration();
          if decls.Err? {
            return Err(decls.error);
          }
          declarations := declarations + decls.value;
          e := Eat(SEMI);
          if e.Fail? {
            return Err(e.error);
          }
        }
      }
      return Ok(declarations);
    }

    method Block() returns (r: Result<Ast.Block, ParseError>)
      modifies this
      ensures Returned(r, State()) == ParseBlock(old(State()))
    {
      var declarations := Declarations();
      if declarations.Err? {
        return Err(declarations.error);
      }
      var body := CompoundStatement();
      if body.Err? {
        return Err(body.error);
      }
      return Ok(Ast.Block(declarations.value, body.value));
    }

    method Program() returns (r: Result<Ast.Program, ParseError>)
      modifies this
      ensures Returned(r, State()) == ParseProgram(old(State()))
    {
      var e := Eat(PROGRAM);
      if e.Fail? {
        return Err(e.error);
      }
      var name := Variable();
      if name.Err? {
        return Err(name.error);
      }
      e := Eat(SEMI);
      if e.Fail? {
        return Err(e.error);
      }
      var block := Block();
      if block.Err? {
        return Err(block.error);
      }
      e := Eat(DOT);
      if e.Fail? {
        return Err(e.error);
      }
      return Ok(Ast.Program(name.value.Value(), block.value));
    }

    method Parse() returns (r: Result<Ast.Program, ParseError>)
      modifies this
      ensures r == Grammar.Parse(old(State()))
    {
      r := Program();
      if r.Ok? && currentToken.kind != EOF {
        return Err(SyntaxError);
      }
    }
  }

  /** new Parser(lexer).parse() */
  method ParseInput(input: Stream) returns (r: Result<Ast.Program, ParseError>)
    ensures r == ParseStream(input)
  {
    var p := Parser.Create(input);
    if p.Err? {
      return Err(p.error);
    }
    r := p.value.Parse();
  }
}
