/**
  What the rules of module Grammar do on whole token lists: printing an
  expression tree and parsing it back gives the same tree, operators bind
  and associate as the grammar's layering says, and the error paths of the
  statement and declaration rules.
*/
module GrammarFacts {
  import opened Results
  import opened Tokens
  import opened JavaInt
  import opened Ast
  import opened Grammar

  // One step of each expression rule.

  lemma FactorLeaf(st: PState)
    requires st.cur.kind == ID || st.cur.kind == INTEGER_CONST || st.cur.kind == REAL_CONST
    requires Eat(st, st.cur.kind).Ok?
    ensures ParseFactor(st)
         == Ok((if st.cur.kind == ID then Var(VarNode(st.cur)) else Num(st.cur), Eat(st, st.cur.kind).value))
  {
  }

  lemma FactorUnary(s0: PState, s1: PState, x: Ast, s2: PState)
    requires (s0.cur.kind == PLUS || s0.cur.kind == MINUS) && Eat(s0, s0.cur.kind) == Ok(s1)
    requires ParseFactor(s1) == Ok((x, s2))
    ensures ParseFactor(s0) == Ok((UnaryOp(s0.cur, x), s2))
  {
  }

  lemma FactorParens(s0: PState, s1: PState, x: Ast, s2: PState, s3: PState)
    requires s0.cur.kind == LPAREN && Eat(s0, LPAREN) == Ok(s1)
    requires ParseExpr(s1) == Ok((x, s2))
    requires s2.cur.kind == RPAREN && Eat(s2, RPAREN) == Ok(s3)
    ensures ParseFactor(s0) == Ok((x, s3))
  {
  }

  /** An LPAREN whose expression is not followed by RPAREN is a syntax error. */
  lemma FactorNeedsCloseParen(s0: PState, s1: PState, x: Ast, s2: PState)
    requires s0.cur.kind == LPAREN && Eat(s0, LPAREN) == Ok(s1)
    requires ParseExpr(s1) == Ok((x, s2))
    requires s2.cur.kind != RPAREN
    ensures ParseFactor(s0) == Err(SyntaxError)
  {
  }

  lemma TermStart(s0: PState, x: Ast, s1: PState)
    requires ParseFactor(s0) == Ok((x, s1))
    ensures ParseTerm(s0) == TermLoop(x, s1)
  {
  }

  lemma TermStep(s0: PState, node: Ast, s1: PState, x: Ast, s2: PState)
    requires IsMulOp(s0.cur.kind) && Eat(s0, s0.cur.kind) == Ok(s1)
    requires ParseFactor(s1) == Ok((x, s2))
    ensures TermLoop(node, s0) == TermLoop(BinOp(node, s0.cur, x), s2)
  {
  }

  lemma TermStop(s0: PState, node: Ast)
    requires !IsMulOp(s0.cur.kind)
    ensures TermLoop(node, s0) == Ok((node, s0))
  {
  }

  lemma ExprStart(s0: PState, x: Ast, s1: PState)
    requires ParseTerm(s0) == Ok((x, s1))
    ensures !IsMulOp(s1.cur.kind)
    ensures ParseExpr(s0) == ExprLoop(x, s1)
  {
  }

  lemma ExprStep(s0: PState, node: Ast, s1: PState, x: Ast, s2: PState)
    requires IsAddOp(s0.cur.kind) && Eat(s0, s0.cur.kind) == Ok(s1)
    requires ParseTerm(s1) == Ok((x, s2))
    ensures !IsMulOp(s2.cur.kind)
    ensures ExprLoop(node, s0) == ExprLoop(BinOp(node, s0.cur, x), s2)
  {
  }

  lemma ExprStop(s0: PState, node: Ast)
    requires !IsMulOp(s0.cur.kind) && !IsAddOp(s0.cur.kind)
    ensures ExprLoop(node, s0) == Ok((node, s0))
  {
  }

  /** factor * factor, then a token that is not an operator, is one expression. */
  lemma ProductBetween(s0: PState, l: Ast, s1: PState, s2: PState, r: Ast, s3: PState)
    requires ParseFactor(s0) == Ok((l, s1))
    requires IsMulOp(s1.cur.kind) && Eat(s1, s1.cur.kind) == Ok(s2)
    requires ParseFactor(s2) == Ok((r, s3))
    requires !IsMulOp(s3.cur.kind) && !IsAddOp(s3.cur.kind)
    ensures ParseExpr(s0) == Ok((BinOp(l, s1.cur, r), s3))
  {
    var e := BinOp(l, s1.cur, r);
    TermStart(s0, l, s1);
    TermStep(s1, l, s2, r, s3);
    TermStop(s3, e);
    ExprStart(s0, e, s3);
    ExprStop(s3, e);
  }

  /** factor + factor, then a token that is not an operator, is one expression. */
  lemma SumBetween(s0: PState, l: Ast, s1: PState, s2: PState, r: Ast, s3: PState)
    requires ParseFactor(s0) == Ok((l, s1))
    requires IsAddOp(s1.cur.kind) && Eat(s1, s1.cur.kind) == Ok(s2)
    requires ParseFactor(s2) == Ok((r, s3))
    requires !IsMulOp(s3.cur.kind) && !IsAddOp(s3.cur.kind)
    ensures ParseExpr(s0) == Ok((BinOp(l, s1.cur, r), s3))
  {
    var e := BinOp(l, s1.cur, r);
    TermStart(s0, l, s1);
    TermStop(s1, l);
    ExprStart(s0, l, s1);
    TermStart(s2, r, s3);
    TermStop(s3, r);
    ExprStep(s1, l, s2, r, s3);
    ExprStop(s3, e);
  }

  // ---------------------------------------------------------------------------
  // Chains of operators fold to the left

  /** node op0 x0 op1 x1 …, grouped to the left: ((node op0 x0) op1 x1) …. */
  function FoldLeft(node: Ast, ops: seq<Token>, xs: seq<Ast>): Ast
    requires |ops| == |xs|
    decreases |ops|
  {
    if ops == [] then node else FoldLeft(BinOp(node, ops[0], xs[0]), ops[1..], xs[1..])
  }

  /** The last operator of a chain is applied last, to everything before it. */
  lemma {:induction false} FoldLeftLast(node: Ast, ops: seq<Token>, xs: seq<Ast>, op: Token, x: Ast)
    requires |ops| == |xs|
    ensures FoldLeft(node, ops + [op], xs + [x]) == BinOp(FoldLeft(node, ops, xs), op, x)
    decreases |ops|
  {
    if ops == [] {
      assert ops + [op] == [op] && xs + [x] == [x];
      assert [op][1..] == [] && [x][1..] == [];
    } else {
      assert (ops + [op])[1..] == ops[1..] + [op] && (xs + [x])[1..] == xs[1..] + [x];
      FoldLeftLast(BinOp(node, ops[0], xs[0]), ops[1..], xs[1..], op, x);
    }
  }

  /**
    The states of a chain: s[i] is at the i-th operator, whose operand is
    parsed by the next rule down (factor in a term, term in an expression)
    and ends at s[i + 1].
  */
  predicate MulChain(ops: seq<Token>, xs: seq<Ast>, s: seq<PState>) {
    |ops| == |xs| && |s| == |ops| + 1 &&
    forall i :: 0 <= i < |ops| ==>
      s[i].cur == ops[i] && IsMulOp(ops[i].kind) && Eat(s[i], ops[i].kind).Ok? &&
      ParseFactor(Eat(s[i], ops[i].kind).value) == Ok((xs[i], s[i + 1]))
  }

  predicate AddChain(ops: seq<Token>, xs: seq<Ast>, s: seq<PState>) {
    |ops| == |xs| && |s| == |ops| + 1 &&
    forall i :: 0 <= i < |ops| ==>
      s[i].cur == ops[i] && IsAddOp(ops[i].kind) && Eat(s[i], ops[i].kind).Ok? &&
      ParseTerm(Eat(s[i], ops[i].kind).value) == Ok((xs[i], s[i + 1]))
  }

  lemma MulChainTail(ops: seq<Token>, xs: seq<Ast>, s: seq<PState>)
    requires MulChain(ops, xs, s) && ops != []
    ensures MulChain(ops[1..], xs[1..], s[1..])
  {
  }

  lemma AddChainTail(ops: seq<Token>, xs: seq<Ast>, s: seq<PState>)
    requires AddChain(ops, xs, s) && ops != []
    ensures AddChain(ops[1..], xs[1..], s[1..])
  {
  }

  /** The term loop over a chain of multiplying operators builds the left fold and stops after it. */
  lemma {:induction false} TermLoopFolds(node: Ast, ops: seq<Token>, xs: seq<Ast>, s: seq<PState>)
    requires MulChain(ops, xs, s) && !IsMulOp(s[|ops|].cur.kind)
    ensures TermLoop(node, s[0]) == Ok((FoldLeft(node, ops, xs), s[|ops|]))
    decreases |ops|
  {
    if ops == [] {
      TermStop(s[0], node);
    } else {
      TermStep(s[0], node, Eat(s[0], ops[0].kind).value, xs[0], s[1]);
      MulChainTail(ops, xs, s);
      TermLoopFolds(BinOp(node, ops[0], xs[0]), ops[1..], xs[1..], s[1..]);
    }
  }

  /** A term is its first factor, then the left fold of the chain after it. */
  lemma TermFolds(s0: PState, x: Ast, ops: seq<Token>, xs: seq<Ast>, s: seq<PState>)
    requires MulChain(ops, xs, s) && !IsMulOp(s[|ops|].cur.kind)
    requires ParseFactor(s0) == Ok((x, s[0]))
    ensures ParseTerm(s0) == Ok((FoldLeft(x, ops, xs), s[|ops|]))
  {
    TermStart(s0, x, s[0]);
    TermLoopFolds(x, ops, xs, s);
  }

  /** The expression loop over a chain of adding operators builds the left fold and stops after it. */
  lemma {:induction false} ExprLoopFolds(node: Ast, ops: seq<Token>, xs: seq<Ast>, s: seq<PState>)
    requires AddChain(ops, xs, s) && !IsAddOp(s[|ops|].cur.kind) && !IsMulOp(s[|ops|].cur.kind)
    requires !IsMulOp(s[0].cur.kind)
    ensures ExprLoop(node, s[0]) == Ok((FoldLeft(node, ops, xs), s[|ops|]))
    decreases |ops|
  {
    if ops == [] {
      ExprStop(s[0], node);
    } else {
      ExprStep(s[0], node, Eat(s[0], ops[0].kind).value, xs[0], s[1]);
      AddChainTail(ops, xs, s);
      ExprLoopFolds(BinOp(node, ops[0], xs[0]), ops[1..], xs[1..], s[1..]);
    }
  }

  /** An expression is its first term, then the left fold of the chain after it. */
  lemma ExprFolds(s0: PState, x: Ast, ops: seq<Token>, xs: seq<Ast>, s: seq<PState>)
    requires AddChain(ops, xs, s) && !IsAddOp(s[|ops|].cur.kind) && !IsMulOp(s[|ops|].cur.kind)
    requires ParseTerm(s0) == Ok((x, s[0]))
    ensures ParseExpr(s0) == Ok((FoldLeft(x, ops, xs), s[|ops|]))
  {
    ExprStart(s0, x, s[0]);
    ExprLoopFolds(x, ops, xs, s);
  }

  // ---------------------------------------------------------------------------
  // Printing an expression and parsing it back

  /** A tree the expression rules can build: operators and leaves carry tokens of the right kind. */
  predicate IsExpression(e: Ast) {
    match e
    case BinOp(l, op, r) => (IsAddOp(op.kind) || IsMulOp(op.kind)) && IsExpression(l) && IsExpression(r)
    case UnaryOp(op, x) => (op.kind == PLUS || op.kind == MINUS) && IsExpression(x)
    case Num(t) => t.kind == INTEGER_CONST || t.kind == REAL_CONST
    case Var(v) => v.token.kind == ID
    case _ => false
  }

  const OpenParen: Token := Token(LPAREN, "(")
  const CloseParen: Token := Token(RPAREN, ")")

  /** The tokens of an expression, every binary operation in parentheses. */
  function ExprTokens(e: Ast): (ts: seq<Token>)
    requires IsExpression(e)
    ensures |ts| >= 1
  {
    match e
    case BinOp(l, op, r) => [OpenParen] + ExprTokens(l) + [op] + ExprTokens(r) + [CloseParen]
    case UnaryOp(op, x) => [op] + ExprTokens(x)
    case Num(t) => [t]
    case Var(v) => [v.token]
  }

  /**
    The state reached from st by eating the tokens ts one after the other,
    each under its own kind; None when the stream does not deliver them (or
    fails while fetching the token after the last one).
  */
  function After(st: PState, ts: seq<Token>): Option<PState>
    decreases |ts|
  {
    if ts == [] then Some(st)
    else if st.cur != ts[0] then None
    else
      match Eat(st, ts[0].kind)
      case Ok(s) => After(s, ts[1..])
      case Err(_) => None
  }

  lemma {:induction false} AfterConcat(st: PState, a: seq<Token>, b: seq<Token>)
    ensures After(st, a + b) == match After(st, a) case Some(s) => After(s, b) case None => None
    decreases |a|
  {
    if a == [] {
      assert a + b == b;
    } else {
      assert (a + b)[0] == a[0] && (a + b)[1..] == a[1..] + b;
      match Eat(st, a[0].kind)
      case Ok(s) =>
        AfterConcat(s, a[1..], b);
      case Err(_) =>
    }
  }

  lemma AfterOne(st: PState, t: Token)
    requires After(st, [t]).Some?
    ensures st.cur == t && Eat(st, t.kind) == Ok(After(st, [t]).value)
  {
    assert [t][1..] == [];
  }

  /** Parsing the printed tokens of an expression as a factor gives the tree back and stops right after it. */
  lemma {:induction false} FactorRoundTrip(st: PState, e: Ast)
    requires IsExpression(e) && After(st, ExprTokens(e)).Some?
    ensures ParseFactor(st) == Ok((e, After(st, ExprTokens(e)).value))
    decreases e, 1
  {
    match e
    case Num(t) =>
      AfterOne(st, t);
      FactorLeaf(st);
    case Var(v) =>
      AfterOne(st, v.token);
      FactorLeaf(st);
    case UnaryOp(op, x) =>
      AfterConcat(st, [op], ExprTokens(x));
      AfterOne(st, op);
      var s1 := After(st, [op]).value;
      FactorRoundTrip(s1, x);
      FactorUnary(st, s1, x, After(s1, ExprTokens(x)).value);
    case BinOp(l, op, r) =>
      BinOpRoundTrip(st, l, op, r);
  }

  /** The parenthesised case of FactorRoundTrip. */
  lemma {:induction false} BinOpRoundTrip(st: PState, l: Ast, op: Token, r: Ast)
    requires IsExpression(BinOp(l, op, r)) && After(st, ExprTokens(BinOp(l, op, r))).Some?
    ensures ParseFactor(st) == Ok((BinOp(l, op, r), After(st, ExprTokens(BinOp(l, op, r))).value))
    decreases BinOp(l, op, r), 0
  {
    var s1, s2, s3, s4, s5 := BinOpLayout(st, l, op, r);
    FactorRoundTrip(s1, l);
    FactorRoundTrip(s3, r);
    ParenthesisedBinOp(st, s1, l, s2, s3, r, s4, s5);
  }

  /** The states between the parts of ( l op r ). */
  lemma BinOpLayout(st: PState, l: Ast, op: Token, r: Ast) returns (s1: PState, s2: PState, s3: PState, s4: PState, s5: PState)
    requires IsExpression(BinOp(l, op, r)) && After(st, ExprTokens(BinOp(l, op, r))).Some?
    ensures st.cur == OpenParen && Eat(st, LPAREN) == Ok(s1)
    ensures After(s1, ExprTokens(l)) == Some(s2)
    ensures s2.cur == op && Eat(s2, op.kind) == Ok(s3)
    ensures After(s3, ExprTokens(r)) == Some(s4)
    ensures s4.cur == CloseParen && Eat(s4, RPAREN) == Ok(s5)
    ensures After(st, ExprTokens(BinOp(l, op, r))) == Some(s5)
  {
    var el, er := ExprTokens(l), ExprTokens(r);
    assert ExprTokens(BinOp(l, op, r)) == [OpenParen] + el + [op] + er + [CloseParen];
    AfterConcat(st, [OpenParen] + el + [op] + er, [CloseParen]);
    AfterConcat(st, [OpenParen] + el + [op], er);
    AfterConcat(st, [OpenParen] + el, [op]);
    AfterConcat(st, [OpenParen], el);
    s1 := After(st, [OpenParen]).value;
    s2 := After(s1, el).value;
    s3 := After(s2, [op]).value;
    s4 := After(s3, er).value;
    s5 := After(s4, [CloseParen]).value;
    AfterOne(st, OpenParen);
    AfterOne(s2, op);
    AfterOne(s4, CloseParen);
  }

  /** ( l op r ) is one factor, once l and r are known to be factors. */
  lemma ParenthesisedBinOp(s0: PState, s1: PState, l: Ast, s2: PState, s3: PState, r: Ast, s4: PState, s5: PState)
    requires s0.cur.kind == LPAREN && Eat(s0, LPAREN) == Ok(s1)
    requires ParseFactor(s1) == Ok((l, s2))
    requires (IsAddOp(s2.cur.kind) || IsMulOp(s2.cur.kind)) && Eat(s2, s2.cur.kind) == Ok(s3)
    requires ParseFactor(s3) == Ok((r, s4))
    requires s4.cur.kind == RPAREN && Eat(s4, RPAREN) == Ok(s5)
    ensures ParseFactor(s0) == Ok((BinOp(l, s2.cur, r), s5))
  {
    if IsMulOp(s2.cur.kind) {
      ProductBetween(s1, l, s2, s3, r, s4);
    } else {
      SumBetween(s1, l, s2, s3, r, s4);
    }
    FactorParens(s0, s1, BinOp(l, s2.cur, r), s4, s5);
  }

  /**
    Parsing printed tokens as an expression gives the tree back, when the
    token after them is not an operator.
  */
  lemma ExprRoundTrip(st: PState, e: Ast)
    requires IsExpression(e) && After(st, ExprTokens(e)).Some?
    requires !IsAddOp(After(st, ExprTokens(e)).value.cur.kind) && !IsMulOp(After(st, ExprTokens(e)).value.cur.kind)
    ensures ParseExpr(st) == Ok((e, After(st, ExprTokens(e)).value))
  {
    var s := After(st, ExprTokens(e)).value;
    FactorRoundTrip(st, e);
    TermStart(st, e, s);
    TermStop(s, e);
    ExprStart(st, e, s);
    ExprStop(s, e);
  }

  // ---------------------------------------------------------------------------
  // Statement rules, one step at a time

  lemma AssignStep(s0: PState, s1: PState, s2: PState, x: Ast, s3: PState)
    requires s0.cur.kind == ID && Eat(s0, ID) == Ok(s1)
    requires s1.cur.kind == ASSIGN && Eat(s1, ASSIGN) == Ok(s2)
    requires ParseExpr(s2) == Ok((x, s3))
    ensures ParseStatement(s0) == Ok((Assign(VarNode(s0.cur), s1.cur, x), s3))
  {
  }

  lemma ListStart(s0: PState, x: Ast, s1: PState)
    requires ParseStatement(s0) == Ok((x, s1))
    ensures ParseStatementList(s0)
         == var rest := StatementLoop([x], s1);
            if rest.Ok? && rest.value.1.cur.kind == ID then Err(SyntaxError) else rest
  {
  }

  lemma ListStep(acc: seq<Ast>, s0: PState, s1: PState, x: Ast, s2: PState)
    requires s0.cur.kind == SEMI && Eat(s0, SEMI) == Ok(s1)
    requires ParseStatement(s1) == Ok((x, s2))
    ensures StatementLoop(acc, s0) == StatementLoop(acc + [x], s2)
  {
  }

  lemma ListStop(acc: seq<Ast>, s0: PState)
    requires s0.cur.kind != SEMI
    ensures StatementLoop(acc, s0) == Ok((acc, s0))
  {
  }

  /** BEGIN END holds one empty statement. */
  lemma EmptyCompound(s0: PState, s1: PState, s2: PState)
    requires s0.cur.kind == BEGIN && Eat(s0, BEGIN) == Ok(s1)
    requires s1.cur.kind == END && Eat(s1, END) == Ok(s2)
    ensures ParseCompoundStatement(s0) == Ok((CompoundNode([NoOp]), s2))
  {
    ListStart(s1, NoOp, s1);
    ListStop([NoOp], s1);
  }

  /** An ID not followed by ASSIGN is not an assignment. */
  lemma AssignNeedsBecomes(s0: PState, s1: PState)
    requires s0.cur.kind == ID && Eat(s0, ID) == Ok(s1)
    requires s1.cur.kind != ASSIGN
    ensures ParseStatement(s0) == Err(SyntaxError)
  {
  }

  /** compound_statement: the statement list between BEGIN and END, which must be there. */
  lemma CompoundRule(s0: PState, s1: PState, nodes: seq<Ast>, s2: PState)
    requires s0.cur.kind == BEGIN && Eat(s0, BEGIN) == Ok(s1)
    requires ParseStatementList(s1) == Ok((nodes, s2))
    ensures s2.cur.kind != END ==> ParseCompoundStatement(s0) == Err(SyntaxError)
    ensures Eat(s2, END).Ok? ==> ParseCompoundStatement(s0) == Ok((CompoundNode(nodes), Eat(s2, END).value))
  {
  }

  /** A statement that starts with BEGIN is the compound statement, wrapped. */
  lemma StatementCompound(s0: PState, c: CompoundNode, s1: PState)
    requires s0.cur.kind == BEGIN && ParseCompoundStatement(s0) == Ok((c, s1))
    ensures ParseStatement(s0) == Ok((Compound(c), s1))
  {
  }

  /** for_statement: both bounds are converted from their tokens; the loop variable is the ID. */
  lemma ForRule(s0: PState, s1: PState, s2: PState, s3: PState, s4: PState, s5: PState, s6: PState,
                s7: PState, body: CompoundNode, s8: PState)
    requires s0.cur.kind == FOR && Eat(s0, FOR) == Ok(s1)
    requires s1.cur.kind == ID && Eat(s1, ID) == Ok(s2)
    requires s2.cur.kind == ASSIGN && Eat(s2, ASSIGN) == Ok(s3)
    requires s3.cur.kind == INTEGER_CONST && Eat(s3, INTEGER_CONST) == Ok(s4)
    requires s4.cur.kind == TO && Eat(s4, TO) == Ok(s5)
    requires s5.cur.kind == INTEGER_CONST && Eat(s5, INTEGER_CONST) == Ok(s6)
    requires s6.cur.kind == DO && Eat(s6, DO) == Ok(s7)
    requires ParseCompoundStatement(s7) == Ok((body, s8))
    ensures ParseStatement(s0)
         == match (ParseInt(s5.cur.lexeme), ParseInt(s3.cur.lexeme))
            case (Some(e), Some(s)) => Ok((ForStatement(body, e, s, VarNode(s1.cur)), s8))
            case _ => Err(NumberFormat)
  {
    ForRangeRule(s3, s4, s5, s6, s7);
    assert ParseVariable(s1) == Ok((VarNode(s1.cur), s2));
    assert ParseForHead(s0) == Ok((VarNode(s1.cur), s3.cur, s5.cur, s7));
  }

  /** The bounds part of the for statement hands its two constant tokens on. */
  lemma ForRangeRule(s3: PState, s4: PState, s5: PState, s6: PState, s7: PState)
    requires s3.cur.kind == INTEGER_CONST && Eat(s3, INTEGER_CONST) == Ok(s4)
    requires s4.cur.kind == TO && Eat(s4, TO) == Ok(s5)
    requires s5.cur.kind == INTEGER_CONST && Eat(s5, INTEGER_CONST) == Ok(s6)
    requires s6.cur.kind == DO && Eat(s6, DO) == Ok(s7)
    ensures ParseForRange(s3) == Ok((s3.cur, s5.cur, s7))
  {
  }

  // ---------------------------------------------------------------------------
  // Declaration rules, one step at a time

  lemma IdStep(acc: seq<VarNode>, s0: PState, s1: PState, s2: PState)
    requires s0.cur.kind == COMMA && Eat(s0, COMMA) == Ok(s1)
    requires s1.cur.kind == ID && Eat(s1, ID) == Ok(s2)
    ensures IdList(acc, s0) == IdList(acc + [VarNode(s1.cur)], s2)
  {
  }

  lemma IdStop(acc: seq<VarNode>, s0: PState)
    requires s0.cur.kind != COMMA
    ensures IdList(acc, s0) == Ok((acc, s0))
  {
  }

  /** One name, COLON and a type: a single declaration of that name with that type. */
  lemma SingleDeclaration(s0: PState, s1: PState, s2: PState, s3: PState)
    requires s0.cur.kind == ID && Eat(s0, ID) == Ok(s1)
    requires s1.cur.kind == COLON && Eat(s1, COLON) == Ok(s2)
    requires (s2.cur.kind == INTEGER || s2.cur.kind == REAL) && Eat(s2, s2.cur.kind) == Ok(s3)
    ensures ParseVariableDeclaration(s0) == Ok(([VarDecl(VarNode(s0.cur), TypeNode(s2.cur))], s3))
  {
    IdStop([VarNode(s0.cur)], s1);
    assert ParseTypeSpec(s2) == Ok((TypeNode(s2.cur), s3));
    assert Declare([VarNode(s0.cur)], TypeNode(s2.cur)) == [VarDecl(VarNode(s0.cur), TypeNode(s2.cur))];
  }

  lemma DeclarationsStart(s0: PState, s1: PState)
    requires s0.cur.kind == VAR && Eat(s0, VAR) == Ok(s1)
    ensures ParseDeclarations(s0) == DeclarationLoop([], s1)
  {
  }

  /** One pass of the declarations loop: a variable_declaration, then SEMI. */
  lemma DeclarationStep(acc: seq<VarDecl>, s0: PState, ds: seq<VarDecl>, s1: PState, s2: PState)
    requires s0.cur.kind == ID && ParseVariableDeclaration(s0) == Ok((ds, s1))
    requires s1.cur.kind == SEMI && Eat(s1, SEMI) == Ok(s2)
    ensures DeclarationLoop(acc, s0) == DeclarationLoop(acc + ds, s2)
  {
  }

  /** A variable_declaration not closed by SEMI is a syntax error. */
  lemma DeclarationNeedsSemicolon(acc: seq<VarDecl>, s0: PState, ds: seq<VarDecl>, s1: PState)
    requires s0.cur.kind == ID && ParseVariableDeclaration(s0) == Ok((ds, s1))
    requires s1.cur.kind != SEMI
    ensures DeclarationLoop(acc, s0) == Err(SyntaxError)
  {
  }

  lemma DeclarationStop(acc: seq<VarDecl>, s0: PState)
    requires s0.cur.kind != ID
    ensures DeclarationLoop(acc, s0) == Ok((acc, s0))
  {
  }

  /** block: the declarations, then the compound statement right after them. */
  lemma BlockRule(s0: PState, ds: seq<VarDecl>, s1: PState)
    requires ParseDeclarations(s0) == Ok((ds, s1))
    ensures ParseBlock(s0) == match ParseCompoundStatement(s1)
                              case Ok((c, s2)) => Ok((Block(ds, c), s2))
                              case Err(e) => Err(e)
  {
  }

  /** program: the name is the lexeme of the ID after PROGRAM, and DOT must close the block. */
  lemma ProgramRule(s0: PState, s1: PState, s2: PState, s3: PState, b: Block, s4: PState)
    requires s0.cur.kind == PROGRAM && Eat(s0, PROGRAM) == Ok(s1)
    requires s1.cur.kind == ID && Eat(s1, ID) == Ok(s2)
    requires s2.cur.kind == SEMI && Eat(s2, SEMI) == Ok(s3)
    requires ParseBlock(s3) == Ok((b, s4))
    ensures s4.cur.kind != DOT ==> ParseProgram(s0) == Err(SyntaxError)
    ensures Eat(s4, DOT).Ok? ==> ParseProgram(s0) == Ok((Program(s1.cur.lexeme, b), Eat(s4, DOT).value))
  {
    assert ParseVariable(s1) == Ok((VarNode(s1.cur), s2));
    assert ParseProgramHead(s0) == Ok((s1.cur.lexeme, s3));
  }

  lemma VariableDeclarationRule(s0: PState, s1: PState, names: seq<VarNode>, s2: PState, s3: PState, s4: PState)
    requires s0.cur.kind == ID && Eat(s0, ID) == Ok(s1)
    requires IdList([VarNode(s0.cur)], s1) == Ok((names, s2))
    requires s2.cur.kind == COLON && Eat(s2, COLON) == Ok(s3)
    requires s3.cur.kind == INTEGER && Eat(s3, INTEGER) == Ok(s4)
    ensures ParseVariableDeclaration(s0) == Ok((Declare(names, TypeNode(s3.cur)), s4))
  {
    assert ParseTypeSpec(s3) == Ok((TypeNode(s3.cur), s4));
  }

  // ---------------------------------------------------------------------------
  // Concrete token lists, on any stream that delivers them

  /** The state after eating ts[k], the k-th token of a list the stream delivers from st. */
  lemma Next(st: PState, ts: seq<Token>, k: nat) returns (s1: PState)
    requires k < |ts| && After(st, ts[k..]).Some?
    ensures st.cur == ts[k] && Eat(st, ts[k].kind) == Ok(s1)
    ensures After(s1, ts[k + 1..]) == After(st, ts[k..])
  {
    assert ts[k..][0] == ts[k] && ts[k..][1..] == ts[k + 1..];
    s1 := Eat(st, ts[k].kind).value;
  }

  /** The node a one-token factor builds. */
  function Leaf(t: Token): Ast {
    if t.kind == ID then Var(VarNode(t)) else Num(t)
  }

  lemma LeafFactor(s0: PState, s1: PState)
    requires (s0.cur.kind == ID || s0.cur.kind == INTEGER_CONST) && Eat(s0, s0.cur.kind) == Ok(s1)
    ensures ParseFactor(s0) == Ok((Leaf(s0.cur), s1))
  {
    FactorLeaf(s0);
  }

  lemma LeafTerm(s0: PState, s1: PState)
    requires (s0.cur.kind == ID || s0.cur.kind == INTEGER_CONST) && Eat(s0, s0.cur.kind) == Ok(s1)
    requires !IsMulOp(s1.cur.kind)
    ensures ParseTerm(s0) == Ok((Leaf(s0.cur), s1))
  {
    LeafFactor(s0, s1);
    TermStart(s0, Leaf(s0.cur), s1);
    TermStop(s1, Leaf(s0.cur));
  }

  lemma LeafExpr(s0: PState, s1: PState)
    requires (s0.cur.kind == ID || s0.cur.kind == INTEGER_CONST) && Eat(s0, s0.cur.kind) == Ok(s1)
    requires !IsMulOp(s1.cur.kind) && !IsAddOp(s1.cur.kind)
    ensures ParseExpr(s0) == Ok((Leaf(s0.cur), s1))
  {
    LeafTerm(s0, s1);
    ExprStart(s0, Leaf(s0.cur), s1);
    ExprStop(s1, Leaf(s0.cur));
  }

  /** The token after ts does not continue an expression. */
  predicate EndsExpression(st: PState, ts: seq<Token>) {
    After(st, ts).Some? && !IsAddOp(After(st, ts).value.cur.kind) && !IsMulOp(After(st, ts).value.cur.kind)
  }

  const A: Token := Token(ID, "a")
  const B: Token := Token(ID, "b")
  const C: Token := Token(ID, "c")
  const Minus: Token := Token(MINUS, "-")
  const Plus: Token := Token(PLUS, "+")
  const Times: Token := Token(MUL, "*")

  /** a - b - c groups to the left: (a - b) - c. */
  lemma SubtractionAssociatesLeft(st: PState)
    requires EndsExpression(st, [A, Minus, B, Minus, C])
    ensures ParseExpr(st) == Ok((BinOp(BinOp(Var(VarNode(A)), Minus, Var(VarNode(B))), Minus, Var(VarNode(C))),
                                 After(st, [A, Minus, B, Minus, C]).value))
  {    var ts := [A, Minus, B, Minus, C];
    assert ts[0..] == ts;
    var s1 := Next(st, ts, 0);
    var s2 := Next(s1, ts, 1);
    var s3 := Next(s2, ts, 2);
    var s4 := Next(s3, ts, 3);
    var s5 := Next(s4, ts, 4);
    assert ts[5..] == [];
    var a, b, c := Var(VarNode(A)), Var(VarNode(B)), Var(VarNode(C));
    LeafTerm(st, s1);
    ExprStart(st, a, s1);
    LeafTerm(s2, s3);
    ExprStep(s1, a, s2, b, s3);
    LeafTerm(s4, s5);
    ExprStep(s3, BinOp(a, Minus, b), s4, c, s5);
    ExprStop(s5, BinOp(BinOp(a, Minus, b), Minus, c));
  }

  /** a + b * c: multiplication binds tighter than addition. */
  lemma MultiplicationBindsTighter(st: PState)
    requires EndsExpression(st, [A, Plus, B, Times, C])
    ensures ParseExpr(st) == Ok((BinOp(Var(VarNode(A)), Plus, BinOp(Var(VarNode(B)), Times, Var(VarNode(C)))),
                                 After(st, [A, Plus, B, Times, C]).value))
  {
    var ts := [A, Plus, B, Times, C];
    assert ts[0..] == ts;
    var s1 := Next(st, ts, 0);
    var s2 := Next(s1, ts, 1);
    var s3 := Next(s2, ts, 2);
    var s4 := Next(s3, ts, 3);
    var s5 := Next(s4, ts, 4);
    assert ts[5..] == [];
    var a, b, c := Var(VarNode(A)), Var(VarNode(B)), Var(VarNode(C));
    LeafTerm(st, s1);
    ExprStart(st, a, s1);
    LeafFactor(s2, s3);
    TermStart(s2, b, s3);
    LeafFactor(s4, s5);
    TermStep(s3, b, s4, c, s5);
    TermStop(s5, BinOp(b, Times, c));
    ExprStep(s1, a, s2, BinOp(b, Times, c), s5);
    ExprStop(s5, BinOp(a, Plus, BinOp(b, Times, c)));
  }

  /** - - a: unary operators nest to the right. */
  lemma UnaryOperatorsNest(st: PState)
    requires EndsExpression(st, [Minus, Minus, A])
    ensures ParseExpr(st) == Ok((UnaryOp(Minus, UnaryOp(Minus, Var(VarNode(A)))), After(st, [Minus, Minus, A]).value))
  {    var ts := [Minus, Minus, A];
    assert ts[0..] == ts;
    var s1 := Next(st, ts, 0);
    var s2 := Next(s1, ts, 1);
    var s3 := Next(s2, ts, 2);
    assert ts[3..] == [];
    var a := Var(VarNode(A));
    var e := UnaryOp(Minus, UnaryOp(Minus, a));
    LeafFactor(s2, s3);
    FactorUnary(s1, s2, a, s3);
    FactorUnary(st, s1, UnaryOp(Minus, a), s3);
    TermStart(st, e, s3);
    TermStop(s3, e);
    ExprStart(st, e, s3);
    ExprStop(s3, e);
  }

  const One: Token := Token(INTEGER_CONST, "1")
  const Becomes: Token := Token(ASSIGN, ":=")
  const Semi: Token := Token(SEMI, ";")

  /** An assignment followed directly by another name (no SEMI between) is an error. */
  lemma MissingSemicolonIsAnError(st: PState)
    requires After(st, [A, Becomes, One]).Some? && After(st, [A, Becomes, One]).value.cur.kind == ID
    ensures ParseStatementList(st) == Err(SyntaxError)
  {    var ts := [A, Becomes, One];
    assert ts[0..] == ts;
    var s1 := Next(st, ts, 0);
    var s2 := Next(s1, ts, 1);
    var s3 := Next(s2, ts, 2);
    assert ts[3..] == [];
    var assign := Assign(VarNode(A), Becomes, Num(One));
    LeafExpr(s2, s3);
    AssignStep(st, s1, s2, Num(One), s3);
    ListStart(st, assign, s3);
    ListStop([assign], s3);
  }

  /** A statement list that starts with SEMI begins with an empty statement. */
  lemma LeadingSemicolonGivesEmptyStatement(st: PState)
    requires EndsExpression(st, [Semi, A, Becomes, One])
    requires After(st, [Semi, A, Becomes, One]).value.cur.kind != SEMI
    requires After(st, [Semi, A, Becomes, One]).value.cur.kind != ID
    ensures ParseStatementList(st) == Ok(([NoOp, Assign(VarNode(A), Becomes, Num(One))], After(st, [Semi, A, Becomes, One]).value))
  {    var ts := [Semi, A, Becomes, One];
    assert ts[0..] == ts;
    var s1 := Next(st, ts, 0);
    var s2 := Next(s1, ts, 1);
    var s3 := Next(s2, ts, 2);
    var s4 := Next(s3, ts, 3);
    assert ts[4..] == [];
    var assign := Assign(VarNode(A), Becomes, Num(One));
    assert ParseStatement(st) == Ok((NoOp, st));
    ListStart(st, NoOp, st);
    LeafExpr(s3, s4);
    AssignStep(s1, s2, s3, Num(One), s4);
    ListStep([NoOp], st, s1, assign, s4);
    assert [NoOp] + [assign] == [NoOp, assign];
    ListStop([NoOp, assign], s4);
  }

  const Comma: Token := Token(COMMA, ",")
  const Colon: Token := Token(COLON, ":")
  const IntegerType: Token := Token(INTEGER, "INTEGER")

  /** a, b : INTEGER declares both names with the one type node. */
  lemma DeclarationSharesType(st: PState)
    requires After(st, [A, Comma, B, Colon, IntegerType]).Some?
    ensures ParseVariableDeclaration(st)
         == Ok(([VarDecl(VarNode(A), TypeNode(IntegerType)), VarDecl(VarNode(B), TypeNode(IntegerType))],
                After(st, [A, Comma, B, Colon, IntegerType]).value))
  {    var ts := [A, Comma, B, Colon, IntegerType];
    assert ts[0..] == ts;
    var s1 := Next(st, ts, 0);
    var s2 := Next(s1, ts, 1);
    var s3 := Next(s2, ts, 2);
    var s4 := Next(s3, ts, 3);
    var s5 := Next(s4, ts, 4);
    assert ts[5..] == [];
    IdStep([VarNode(A)], s1, s2, s3);
    assert [VarNode(A)] + [VarNode(B)] == [VarNode(A), VarNode(B)];
    IdStop([VarNode(A), VarNode(B)], s3);
    VariableDeclarationRule(st, s1, [VarNode(A), VarNode(B)], s3, s4, s5);
    assert Declare([VarNode(A), VarNode(B)], TypeNode(IntegerType))
        == [VarDecl(VarNode(A), TypeNode(IntegerType)), VarDecl(VarNode(B), TypeNode(IntegerType))];
  }

  const ForKeyword: Token := Token(FOR, "FOR")
  const ToKeyword: Token := Token(TO, "TO")
  const DoKeyword: Token := Token(DO, "DO")
  const BeginKeyword: Token := Token(BEGIN, "BEGIN")
  const EndKeyword: Token := Token(END, "END")
  const I: Token := Token(ID, "i")

  /** FOR i := start TO end DO BEGIN END as tokens. */
  function ForTokens(start: string, end: string): seq<Token> {
    [ForKeyword, I, Becomes, Token(INTEGER_CONST, start), ToKeyword, Token(INTEGER_CONST, end), DoKeyword, BeginKeyword, EndKeyword]
  }

  /** FOR i := start TO end DO BEGIN END: both bounds go through parseInt. */
  lemma ForStatementBounds(st: PState, start: string, end: string)
    requires After(st, ForTokens(start, end)).Some?
    ensures ParseStatement(st)
         == match (ParseInt(end), ParseInt(start))
            case (Some(e), Some(s)) => Ok((ForStatement(CompoundNode([NoOp]), e, s, VarNode(I)), After(st, ForTokens(start, end)).value))
            case _ => Err(NumberFormat)
  {    var ts := ForTokens(start, end);
    assert ts[0..] == ts;
    var s1 := Next(st, ts, 0);
    var s2 := Next(s1, ts, 1);
    var s3 := Next(s2, ts, 2);
    var s4 := Next(s3, ts, 3);
    var s5 := Next(s4, ts, 4);
    var s6 := Next(s5, ts, 5);
    var s7 := Next(s6, ts, 6);
    var s8 := Next(s7, ts, 7);
    var s9 := Next(s8, ts, 8);
    assert ts[9..] == [];
    EmptyCompound(s7, s8, s9);
    ForRule(st, s1, s2, s3, s4, s5, s6, s7, CompoundNode([NoOp]), s9);
  }

  /** FOR i := 1 TO 10: the bounds come out as the numbers written. */
  lemma ForStatementWithDecimalBounds(st: PState)
    requires After(st, ForTokens(Decimal(1), Decimal(10))).Some?
    ensures ParseStatement(st)
         == Ok((ForStatement(CompoundNode([NoOp]), 10, 1, VarNode(I)), After(st, ForTokens(Decimal(1), Decimal(10))).value))
  {
    ParseDecimal(1);
    ParseDecimal(10);
    ForStatementBounds(st, Decimal(1), Decimal(10));
  }

  /** An end point one past the int range is a NumberFormatException. */
  lemma ForStatementBoundOutOfRange(st: PState)
    requires After(st, ForTokens(Decimal(1), Decimal(MaxInt + 1))).Some?
    ensures ParseStatement(st) == Err(NumberFormat)
  {
    ParseDecimal(MaxInt + 1);
    ForStatementBounds(st, Decimal(1), Decimal(MaxInt + 1));
  }
}
