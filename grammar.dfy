/**
  The recursive-descent parser of src/InterpreterAlpha/Parser.java as pure
  functions: one function per grammar rule, from the parser's state (the
  token stream, how far it has been read, and the one-token lookahead) to the
  node built and the state afterwards, or the error. The class in parser.dfy
  is proved to compute exactly these.

  The parser pulls its tokens from a lexer of the richer language variant
  (with PROGRAM, BEGIN, FOR, …), which is not part of this model; a Stream
  stands for it: a finite list of tokens, then either EOF for ever or a
  lexical error.
*/
module Grammar {
  import opened Results
  import opened Tokens
  import opened JavaInt
  import opened Ast

  datatype ParseError =
    | SyntaxError  // "Invalid syntax!"
    | LexError     // the lexer failed while the parser asked for a token
    | NumberFormat // Integer.parseInt of a loop bound failed

  /** The tokens the lexer would hand out, then EOF for ever or an error. */
  datatype Stream = Stream(tokens: seq<Token>, failsAtEnd: bool)

  /** The i-th call of get_next_token on the stream. */
  function Fetch(input: Stream, i: nat): Result<Token, ParseError> {
    if i < |input.tokens| then Ok(input.tokens[i])
    else if input.failsAtEnd then Err(LexError)
    else Ok(EofToken)
  }

  /** The parser's state: the stream, how many tokens were fetched, and current_token. */
  datatype PState = PState(input: Stream, next: nat, cur: Token)

  /** The Parser constructor fetches the first token. */
  function Start(input: Stream): Result<PState, ParseError> {
    var t :- Fetch(input, 0);
    Ok(PState(input, 1, t))
  }

  /** Tokens left to read, plus one while the lookahead is not EOF. */
  function Measure(st: PState): nat {
    (if st.next <= |st.input.tokens| then |st.input.tokens| - st.next else 0)
    + (if st.cur.kind == EOF then 0 else 1)
  }

  /** What a rule returns: the node and the state after it, or the error. */
  type Parsed<T> = Result<(T, PState), ParseError>

  /** A method's result and final state in the shape the rule functions use. */
  function Returned<T>(r: Result<T, ParseError>, st: PState): Parsed<T> {
    match r
    case Ok(v) => Ok((v, st))
    case Err(e) => Err(e)
  }

  /** eat: advance to the next token if and only if the current one has kind k. */
  function Eat(st: PState, k: TokenKind): (r: Result<PState, ParseError>)
    ensures r.Ok? <==> st.cur.kind == k && Fetch(st.input, st.next).Ok?
    ensures r.Ok? ==> r.value == PState(st.input, st.next + 1, Fetch(st.input, st.next).value)
    ensures st.cur.kind != k ==> r == Err(SyntaxError)
    ensures r.Ok? && k != EOF ==> Measure(r.value) < Measure(st)
  {
    if st.cur.kind == k then
      var t :- Fetch(st.input, st.next);
      Ok(PState(st.input, st.next + 1, t))
    else
      Err(SyntaxError)
  }

  // ---------------------------------------------------------------------------
  // Expressions

  predicate IsAddOp(k: TokenKind) { k == MINUS || k == PLUS }

  predicate IsMulOp(k: TokenKind) { k == FLOAT_DIV || k == INTEGER_DIV || k == MUL }

  /** variable: ID */
  function ParseVariable(st: PState): (r: Parsed<VarNode>)
    ensures r.Ok? ==> st.cur.kind == ID && r.value.0 == VarNode(st.cur)
    ensures r.Ok? ==> Measure(r.value.1) < Measure(st)
  {
    var s1 :- Eat(st, ID);
    Ok((VarNode(st.cur), s1))
  }

  /** factor: (PLUS | MINUS) factor | INTEGER_CONST | REAL_CONST | LPAREN expr RPAREN | variable */
  function ParseFactor(st: PState): (r: Parsed<Ast>)
    decreases Measure(st), 0
    ensures r.Ok? ==> Measure(r.value.1) < Measure(st)
  {
    var token := st.cur;
    if token.kind == PLUS then
      var s1 :- Eat(st, PLUS);
      var f :- ParseFactor(s1);
      Ok((UnaryOp(token, f.0), f.1))
    else if token.kind == MINUS then
      var s1 :- Eat(st, MINUS);
      var f :- ParseFactor(s1);
      Ok((UnaryOp(token, f.0), f.1))
    else if token.kind == INTEGER_CONST then
      var s1 :- Eat(st, INTEGER_CONST);
      Ok((Num(token), s1))
    else if token.kind == REAL_CONST then
      var s1 :- Eat(st, REAL_CONST);
      Ok((Num(token), s1))
    else if token.kind == LPAREN then
      var s1 :- Eat(st, LPAREN);
      var e :- ParseExpr(s1);
      var s2 :- Eat(e.1, RPAREN);
      Ok((e.0, s2))
    else
      var v :- ParseVariable(st);
      Ok((Var(v.0), v.1))
  }

  /** term: factor ((MUL | INTEGER_DIV | FLOAT_DIV) factor)* */
  function ParseTerm(st: PState): (r: Parsed<Ast>)
    decreases Measure(st), 1
    ensures r.Ok? ==> Measure(r.value.1) < Measure(st)
    ensures r.Ok? ==> !IsMulOp(r.value.1.cur.kind)
  {
    var f :- ParseFactor(st);
    TermLoop(f.0, f.1)
  }

  /** The while loop of term, with the tree built so far in node. */
  function TermLoop(node: Ast, st: PState): (r: Parsed<Ast>)
    decreases Measure(st), 0
    ensures r.Ok? ==> Measure(r.value.1) <= Measure(st)
    ensures r.Ok? ==> !IsMulOp(r.value.1.cur.kind)
  {
    if IsMulOp(st.cur.kind) then
      var token := st.cur;
      var s1 :- if token.kind == MUL then Eat(st, MUL)
                else if token.kind == INTEGER_DIV then Eat(st, INTEGER_DIV)
                else Eat(st, FLOAT_DIV);
      var f :- ParseFactor(s1);
      TermLoop(BinOp(node, token, f.0), f.1)
    else
      Ok((node, st))
  }

  /** expr: term ((PLUS | MINUS) term)* */
  function ParseExpr(st: PState): (r: Parsed<Ast>)
    decreases Measure(st), 2
    ensures r.Ok? ==> Measure(r.value.1) < Measure(st)
    ensures r.Ok? ==> !IsAddOp(r.value.1.cur.kind) && !IsMulOp(r.value.1.cur.kind)
  {
    var t :- ParseTerm(st);
    ExprLoop(t.0, t.1)
  }

  /** The while loop of expr, with the tree built so far in node. */
  function ExprLoop(node: Ast, st: PState): (r: Parsed<Ast>)
    requires !IsMulOp(st.cur.kind)
    decreases Measure(st), 0
    ensures r.Ok? ==> Measure(r.value.1) <= Measure(st)
    ensures r.Ok? ==> !IsAddOp(r.value.1.cur.kind) && !IsMulOp(r.value.1.cur.kind)
  {
    if IsAddOp(st.cur.kind) then
      var token := st.cur;
      var s1 :- if token.kind == MINUS then Eat(st, MINUS) else Eat(st, PLUS);
      var t :- ParseTerm(s1);
      ExprLoop(BinOp(node, token, t.0), t.1)
    else
      Ok((node, st))
  }

  // ---------------------------------------------------------------------------
  // Statements

  /** empty: a NoOp that consumes nothing. */
  function ParseEmpty(st: PState): (r: Parsed<Ast>)
    ensures r == Ok((NoOp, st))
  {
    Ok((NoOp, st))
  }

  /** assign_statement: variable ASSIGN expr */
  function ParseAssignStatement(st: PState): (r: Parsed<Ast>)
    ensures r.Ok? ==> Measure(r.value.1) < Measure(st)
    ensures r.Ok? ==> st.cur.kind == ID && r.value.0.Assign? && r.value.0.target == VarNode(st.cur)
    ensures r.Ok? ==> r.value.0.op.kind == ASSIGN
    ensures r.Ok? ==> !IsAddOp(r.value.1.cur.kind) && !IsMulOp(r.value.1.cur.kind)
  {
    var left :- ParseVariable(st);
    var token := left.1.cur;
    var s1 :- Eat(left.1, ASSIGN);
    var right :- ParseExpr(s1);
    Ok((Assign(left.0, token, right.0), right.1))
  }

  /** Integer.parseInt of a token's lexeme. */
  function IntValue(t: Token): Result<Int32, ParseError> {
    match ParseInt(t.lexeme)
    case Some(n) => Ok(n)
    case None => Err(NumberFormat)
  }

  /** compound_statement: BEGIN statement_list END */
  function ParseCompoundStatement(st: PState): (r: Parsed<CompoundNode>)
    decreases Measure(st), 0
    ensures r.Ok? ==> Measure(r.value.1) < Measure(st)
    ensures r.Ok? ==> st.cur.kind == BEGIN && |r.value.0.children| >= 1
  {
    var s1 :- Eat(st, BEGIN);
    var nodes :- ParseStatementList(s1);
    var s2 :- Eat(nodes.1, END);
    Ok((CompoundNode(nodes.0), s2))
  }

  /** statement_list: statement (SEMI statement)*, not followed by an ID. */
  function ParseStatementList(st: PState): (r: Parsed<seq<Ast>>)
    decreases Measure(st), 2
    ensures r.Ok? ==> Measure(r.value.1) <= Measure(st)
    ensures r.Ok? ==> |r.value.0| >= 1
    ensures r.Ok? ==> r.value.1.cur.kind != SEMI && r.value.1.cur.kind != ID
  {
    var first :- ParseStatement(st);
    var results :- StatementLoop([first.0], first.1);
    if results.1.cur.kind == ID then Err(SyntaxError) else Ok(results)
  }

  /** The while loop of statement_list, with the statements parsed so far in acc. */
  function StatementLoop(acc: seq<Ast>, st: PState): (r: Parsed<seq<Ast>>)
    decreases Measure(st), 0
    ensures r.Ok? ==> Measure(r.value.1) <= Measure(st)
    ensures r.Ok? ==> r.value.1.cur.kind != SEMI
    ensures r.Ok? ==> acc <= r.value.0
  {
    if st.cur.kind == SEMI then
      var s1 :- Eat(st, SEMI);
      var node :- ParseStatement(s1);
      StatementLoop(acc + [node.0], node.1)
    else
      Ok((acc, st))
  }

  /** statement: compound_statement | assign_statement | for_statement | empty */
  function ParseStatement(st: PState): (r: Parsed<Ast>)
    decreases Measure(st), 1
    ensures r.Ok? ==> Measure(r.value.1) <= Measure(st)
    ensures st.cur.kind != BEGIN && st.cur.kind != ID && st.cur.kind != FOR ==> r == Ok((NoOp, st))
  {
    if st.cur.kind == BEGIN then
      var c :- ParseCompoundStatement(st);
      Ok((Compound(c.0), c.1))
    else if st.cur.kind == ID then
      ParseAssignStatement(st)
    else if st.cur.kind == FOR then
      ParseForStatement(st)
    else
      ParseEmpty(st)
  }

  /** INTEGER_CONST TO INTEGER_CONST DO: the start and end tokens, and the state after DO. */
  function ParseForRange(st: PState): (r: Result<(Token, Token, PState), ParseError>)
    ensures r.Ok? ==> Measure(r.value.2) < Measure(st)
  {
    var start := st.cur;
    var s1 :- Eat(st, INTEGER_CONST);
    var s2 :- Eat(s1, TO);
    var end := s2.cur;
    var s3 :- Eat(s2, INTEGER_CONST);
    var s4 :- Eat(s3, DO);
    Ok((start, end, s4))
  }

  /**
    The head of for_statement, FOR variable ASSIGN INTEGER_CONST TO INTEGER_CONST DO:
    the variable, the start and end tokens, and the state after DO.
  */
  function ParseForHead(st: PState): (r: Result<(VarNode, Token, Token, PState), ParseError>)
    ensures r.Ok? ==> Measure(r.value.3) < Measure(st)
  {
    var s1 :- Eat(st, FOR);
    var v :- ParseVariable(s1);
    var s2 :- Eat(v.1, ASSIGN);
    var range :- ParseForRange(s2);
    Ok((v.0, range.0, range.1, range.2))
  }

  /** for_statement: the head, then compound_statement; the bounds go through parseInt. */
  function ParseForStatement(st: PState): (r: Parsed<Ast>)
    decreases Measure(st), 0
    ensures r.Ok? ==> Measure(r.value.1) < Measure(st)
  {
    var head :- ParseForHead(st);
    var c :- ParseCompoundStatement(head.3);
    // the Java constructor call converts end first, then start
    var endPoint :- IntValue(head.2);
    var startPoint :- IntValue(head.1);
    Ok((ForStatement(c.0, endPoint, startPoint, head.0), c.1))
  }

  // ---------------------------------------------------------------------------
  // Declarations and the program

  /** type_spec: INTEGER | REAL; the node keeps the token it was given. */
  function ParseTypeSpec(st: PState): (r: Parsed<TypeNode>)
    ensures r.Ok? ==> (st.cur.kind == INTEGER || st.cur.kind == REAL) && r.value.0 == TypeNode(st.cur)
    ensures r.Ok? ==> Measure(r.value.1) < Measure(st)
  {
    var s1 :- if st.cur.kind == INTEGER then Eat(st, INTEGER) else Eat(st, REAL);
    Ok((TypeNode(st.cur), s1))
  }

  /** One VarDecl per name, all sharing the one type node. */
  function Declare(vars: seq<VarNode>, t: TypeNode): (ds: seq<VarDecl>)
    ensures |ds| == |vars|
    ensures forall i :: 0 <= i < |ds| ==> ds[i] == VarDecl(vars[i], t)
  {
    if vars == [] then [] else [VarDecl(vars[0], t)] + Declare(vars[1..], t)
  }

  /** The while loop of variable_declaration: (COMMA ID)*, names so far in acc. */
  function IdList(acc: seq<VarNode>, st: PState): (r: Parsed<seq<VarNode>>)
    decreases Measure(st)
    ensures r.Ok? ==> Measure(r.value.1) <= Measure(st)
    ensures r.Ok? ==> r.value.1.cur.kind != COMMA
    ensures r.Ok? ==> acc <= r.value.0
    ensures r.Ok? ==> forall i :: |acc| <= i < |r.value.0| ==> r.value.0[i].token.kind == ID
  {
    if st.cur.kind == COMMA then
      var s1 :- Eat(st, COMMA);
      var v := VarNode(s1.cur);
      var s2 :- Eat(s1, ID);
      IdList(acc + [v], s2)
    else
      Ok((acc, st))
  }

  /** variable_declaration: ID (COMMA ID)* COLON type_spec */
  function ParseVariableDeclaration(st: PState): (r: Parsed<seq<VarDecl>>)
    ensures r.Ok? ==> Measure(r.value.1) < Measure(st)
    ensures r.Ok? ==> |r.value.0| >= 1 && r.value.0[0].varNode == VarNode(st.cur)
    ensures r.Ok? ==> forall i :: 0 <= i < |r.value.0| ==>
                        r.value.0[i].typeNode == r.value.0[0].typeNode && r.value.0[i].varNode.token.kind == ID
  {
    var first := VarNode(st.cur);
    var s1 :- Eat(st, ID);
    var names :- IdList([first], s1);
    var s2 :- Eat(names.1, COLON);
    var t :- ParseTypeSpec(s2);
    Ok((Declare(names.0, t.0), t.1))
  }

  /** declarations: VAR (variable_declaration SEMI)* | empty */
  function ParseDeclarations(st: PState): (r: Parsed<seq<VarDecl>>)
    ensures r.Ok? ==> Measure(r.value.1) <= Measure(st)
    ensures st.cur.kind != VAR ==> r == Ok(([], st))
  {
    if st.cur.kind == VAR then
      var s1 :- Eat(st, VAR);
      DeclarationLoop([], s1)
    else
      Ok(([], st))
  }

  /** The while loop of declarations, with the declarations so far in acc. */
  function DeclarationLoop(acc: seq<VarDecl>, st: PState): (r: Parsed<seq<VarDecl>>)
    decreases Measure(st)
    ensures r.Ok? ==> Measure(r.value.1) <= Measure(st)
    ensures r.Ok? ==> r.value.1.cur.kind != ID
    ensures r.Ok? ==> acc <= r.value.0
  {
    if st.cur.kind == ID then
      var decls :- ParseVariableDeclaration(st);
      var s1 :- Eat(decls.1, SEMI);
      DeclarationLoop(acc + decls.0, s1)
    else
      Ok((acc, st))
  }

  /** block: declarations compound_statement */
  function ParseBlock(st: PState): (r: Parsed<Block>)
    ensures r.Ok? ==> Measure(r.value.1) < Measure(st)
    ensures r.Ok? ==> st.cur.kind == VAR || st.cur.kind == BEGIN
    ensures r.Ok? && st.cur.kind != VAR ==> r.value.0.declaration == []
    ensures r.Ok? ==> |r.value.0.compoundStatement.children| >= 1
  {
    var decls :- ParseDeclarations(st);
    var body :- ParseCompoundStatement(decls.1);
    Ok((Block(decls.0, body.0), body.1))
  }

  /** program: PROGRAM variable SEMI block DOT */
  /** PROGRAM variable SEMI: the program's name, and the state where its block starts. */
  function ParseProgramHead(st: PState): (r: Parsed<string>)
    ensures r.Ok? ==> Measure(r.value.1) < Measure(st)
    ensures r.Ok? ==> st.cur.kind == PROGRAM
  {
    var s1 :- Eat(st, PROGRAM);
    var name :- ParseVariable(s1);
    var s2 :- Eat(name.1, SEMI);
    Ok((name.0.Value(), s2))
  }

  function ParseProgram(st: PState): (r: Parsed<Program>)
    ensures r.Ok? ==> Measure(r.value.1) < Measure(st)
    ensures r.Ok? ==> st.cur.kind == PROGRAM && |r.value.0.block.compoundStatement.children| >= 1
  {
    var head :- ParseProgramHead(st);
    var block :- ParseBlock(head.1);
    var s3 :- Eat(block.1, DOT);
    Ok((Program(head.0, block.0), s3))
  }

  /** parse: a program followed by nothing but EOF. */
  function Parse(st: PState): (r: Result<Program, ParseError>)
    ensures r.Ok? <==> ParseProgram(st).Ok? && ParseProgram(st).value.1.cur.kind == EOF
    ensures r.Ok? ==> r == Ok(ParseProgram(st).value.0)
  {
    var p :- ParseProgram(st);
    if p.1.cur.kind != EOF then Err(SyntaxError) else Ok(p.0)
  }

  /** Constructing a Parser on the stream, then calling parse. */
  function ParseStream(input: Stream): Result<Program, ParseError> {
    var st :- Start(input);
    Parse(st)
  }
}
