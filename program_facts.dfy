/**
  Printing a whole program and parsing it back: for every tree the parser
  can build, the tokens printed from it parse to that same tree. Nested
  compound statements, for loops, expressions and declarations all round
  trip, so the statement, block and program rules of module Grammar are
  shown to read exactly the layout the grammar writes down.
*/
module ProgramFacts {
  import opened Results
  import opened Tokens
  import opened JavaInt
  import opened Ast
  import opened Grammar
  import opened GrammarFacts

  const VarKeyword: Token := Token(VAR, "VAR")
  const ProgramKeyword: Token := Token(PROGRAM, "PROGRAM")
  const Dot: Token := Token(DOT, ".")

  // ---------------------------------------------------------------------------
  // The trees the statement rules build

  /** A statement the parser can build: tokens of the right kinds, and expressions inside. */
  predicate IsStatement(s: Ast)
    decreases s, 0
  {
    match s
    case Compound(c) => IsCompound(c)
    case Assign(v, op, e) => v.token.kind == ID && op.kind == ASSIGN && IsExpression(e)
    case ForStatement(body, _, _, v) => v.token.kind == ID && IsCompound(body)
    case NoOp => true
    case _ => false
  }

  /** A compound statement holds at least one statement, as statement_list requires. */
  predicate IsCompound(c: CompoundNode)
    decreases c, 1
  {
    |c.children| >= 1 && forall i :: 0 <= i < |c.children| ==> IsStatement(c.children[i])
  }

  predicate IsDeclaration(d: VarDecl) {
    d.varNode.token.kind == ID && (d.typeNode.token.kind == INTEGER || d.typeNode.token.kind == REAL)
  }

  predicate AreDeclarations(ds: seq<VarDecl>)
    decreases |ds|
  {
    ds == [] || (IsDeclaration(ds[0]) && AreDeclarations(ds[1..]))
  }

  predicate IsBlock(b: Block) {
    IsCompound(b.compoundStatement) && AreDeclarations(b.declaration)
  }

  // ---------------------------------------------------------------------------
  // Printing

  function StmtTokens(s: Ast): seq<Token>
    requires IsStatement(s)
    decreases s, 0
  {
    match s
    case Compound(c) => CompoundTokens(c)
    case Assign(v, op, e) => [v.token] + ([op] + ExprTokens(e))
    case ForStatement(body, endPoint, startPoint, v) => ForHeadTokens(v, startPoint, endPoint) + CompoundTokens(body)
    case NoOp => []
  }

  /** FOR v := start TO end DO, the bounds written as numerals. */
  function ForHeadTokens(v: VarNode, startPoint: Int32, endPoint: Int32): seq<Token> {
    [ForKeyword, v.token, Becomes, Token(INTEGER_CONST, Numeral(startPoint)), ToKeyword,
     Token(INTEGER_CONST, Numeral(endPoint)), DoKeyword]
  }

  /** BEGIN, the children separated by SEMI, END. */
  function CompoundTokens(c: CompoundNode): seq<Token>
    requires IsCompound(c)
    decreases c, 2
  {
    [BeginKeyword] + (StmtTokens(c.children[0]) + (RestTokens(c, 1) + [EndKeyword]))
  }

  /** SEMI and the i-th child, for each child from i on. */
  function RestTokens(c: CompoundNode, i: nat): seq<Token>
    requires 1 <= i && IsCompound(c)
    decreases c, 1, |c.children| - i
  {
    if i >= |c.children| then [] else [Semi] + (StmtTokens(c.children[i]) + RestTokens(c, i + 1))
  }

  /** name : type ; */
  function DeclTokens(d: VarDecl): seq<Token> {
    [d.varNode.token, Colon, d.typeNode.token, Semi]
  }

  function DeclListTokens(ds: seq<VarDecl>): seq<Token>
    decreases |ds|
  {
    if ds == [] then [] else DeclTokens(ds[0]) + DeclListTokens(ds[1..])
  }

  /** VAR and one declaration per name; nothing when there are none. */
  function DeclarationsTokens(ds: seq<VarDecl>): seq<Token> {
    if ds == [] then [] else [VarKeyword] + DeclListTokens(ds)
  }

  function BlockTokens(b: Block): seq<Token>
    requires IsBlock(b)
  {
    DeclarationsTokens(b.declaration) + CompoundTokens(b.compoundStatement)
  }

  /** PROGRAM name ; block . */
  function ProgramTokens(p: Program): seq<Token>
    requires IsBlock(p.block)
  {
    [ProgramKeyword, Token(ID, p.name), Semi] + BlockTokens(p.block) + [Dot]
  }

  // ---------------------------------------------------------------------------
  // Splitting the walk over printed tokens

  /** The state between two printed parts. */
  lemma Between(st: PState, a: seq<Token>, b: seq<Token>) returns (mid: PState)
    requires After(st, a + b).Some?
    ensures After(st, a) == Some(mid) && After(mid, b) == After(st, a + b)
  {
    AfterConcat(st, a, b);
    mid := After(st, a).value;
  }

  /** The first token of a non-empty printed part is the lookahead before it. */
  lemma FirstToken(st: PState, t: Token, rest: seq<Token>) returns (s1: PState)
    requires After(st, [t] + rest).Some?
    ensures st.cur == t && Eat(st, t.kind) == Ok(s1) && After(s1, rest) == After(st, [t] + rest)
  {
    var m := Between(st, [t], rest);
    AfterOne(st, t);
    s1 := m;
  }

  lemma AppendNext<T>(acc: seq<T>, xs: seq<T>, i: nat)
    requires i < |xs|
    ensures acc + [xs[i]] + xs[i + 1..] == acc + xs[i..]
  {
    assert xs[i..] == [xs[i]] + xs[i + 1..];
  }

  lemma FirstAndRest<T>(xs: seq<T>)
    requires |xs| >= 1
    ensures [xs[0]] + xs[1..] == xs
  {
  }

  // ---------------------------------------------------------------------------
  // Statements round trip

  /**
    Parsing the printed tokens of a statement gives the statement back, when
    the token after them is SEMI or END, as it is inside a compound statement.
  */
  lemma {:induction false} StatementRoundTrip(st: PState, s: Ast)
    requires IsStatement(s) && After(st, StmtTokens(s)).Some?
    requires After(st, StmtTokens(s)).value.cur.kind == SEMI || After(st, StmtTokens(s)).value.cur.kind == END
    ensures ParseStatement(st) == Ok((s, After(st, StmtTokens(s)).value))
    decreases s, 1
  {
    match s
    case NoOp =>
    case Assign(v, op, e) =>
      AssignRoundTrip(st, v, op, e);
    case Compound(c) =>
      CompoundRoundTrip(st, c);
      StatementCompound(st, c, After(st, StmtTokens(s)).value);
    case ForStatement(body, endPoint, startPoint, v) =>
      ForRoundTrip(st, body, endPoint, startPoint, v);
  }

  /** The assignment case of StatementRoundTrip. */
  lemma AssignRoundTrip(st: PState, v: VarNode, op: Token, e: Ast)
    requires IsStatement(Assign(v, op, e)) && After(st, StmtTokens(Assign(v, op, e))).Some?
    requires !IsAddOp(After(st, StmtTokens(Assign(v, op, e))).value.cur.kind)
    requires !IsMulOp(After(st, StmtTokens(Assign(v, op, e))).value.cur.kind)
    ensures ParseStatement(st) == Ok((Assign(v, op, e), After(st, StmtTokens(Assign(v, op, e))).value))
  {
    var s1 := FirstToken(st, v.token, [op] + ExprTokens(e));
    var s2 := FirstToken(s1, op, ExprTokens(e));
    ExprRoundTrip(s2, e);
    AssignStep(st, s1, s2, e, After(s2, ExprTokens(e)).value);
  }

  /** The for-loop case of StatementRoundTrip. */
  lemma {:induction false} ForRoundTrip(st: PState, body: CompoundNode, endPoint: Int32, startPoint: Int32, v: VarNode)
    requires IsStatement(ForStatement(body, endPoint, startPoint, v))
    requires After(st, StmtTokens(ForStatement(body, endPoint, startPoint, v))).Some?
    ensures ParseStatement(st)
         == Ok((ForStatement(body, endPoint, startPoint, v), After(st, StmtTokens(ForStatement(body, endPoint, startPoint, v))).value))
    decreases ForStatement(body, endPoint, startPoint, v), 0
  {
    var head := ForHeadTokens(v, startPoint, endPoint);
    var s7 := Between(st, head, CompoundTokens(body));
    assert head[0..] == head;
    var s1 := Next(st, head, 0);
    var s2 := Next(s1, head, 1);
    var s3 := Next(s2, head, 2);
    var s4 := Next(s3, head, 3);
    var s5 := Next(s4, head, 4);
    var s6 := Next(s5, head, 5);
    var s7' := Next(s6, head, 6);
    assert head[7..] == [];
    assert s7' == s7;
    CompoundRoundTrip(s7, body);
    ParseNumeral(startPoint);
    ParseNumeral(endPoint);
    ForRule(st, s1, s2, s3, s4, s5, s6, s7, body, After(s7, CompoundTokens(body)).value);
  }

  /** Parsing the printed tokens of a compound statement gives it back. */
  lemma {:induction false} CompoundRoundTrip(st: PState, c: CompoundNode)
    requires IsCompound(c) && After(st, CompoundTokens(c)).Some?
    ensures ParseCompoundStatement(st) == Ok((c, After(st, CompoundTokens(c)).value))
    decreases c, 2
  {
    var s1, sa, sb := CompoundLayout(st, c);
    StatementRoundTrip(s1, c.children[0]);
    ListStart(s1, c.children[0], sa);
    FirstAndRest(c.children);
    LoopRoundTrip([c.children[0]], c.children, sa, c, 1, sb);
    assert StatementLoop([c.children[0]], sa) == Ok((c.children, sb));
    assert ParseStatementList(s1) == Ok((c.children, sb));
    CompoundRule(st, s1, c.children, sb);
  }

  /** The states between BEGIN, the first child, the rest of the children and END. */
  lemma CompoundLayout(st: PState, c: CompoundNode) returns (s1: PState, sa: PState, sb: PState)
    requires IsCompound(c) && After(st, CompoundTokens(c)).Some?
    ensures st.cur.kind == BEGIN && Eat(st, BEGIN) == Ok(s1)
    ensures After(s1, StmtTokens(c.children[0])) == Some(sa)
    ensures sa.cur.kind == SEMI || sa.cur.kind == END
    ensures After(sa, RestTokens(c, 1)) == Some(sb)
    ensures sb.cur.kind == END && Eat(sb, END) == Ok(After(st, CompoundTokens(c)).value)
  {
    var first, rest := StmtTokens(c.children[0]), RestTokens(c, 1);
    s1 := FirstToken(st, BeginKeyword, first + (rest + [EndKeyword]));
    sa := Between(s1, first, rest + [EndKeyword]);
    sb := Between(sa, rest, [EndKeyword]);
    AfterOne(sb, EndKeyword);
    if |c.children| > 1 {
      RestStartsWithSemi(sa, c, 1);
    } else {
      assert rest == [];
    }
  }

  lemma RestStartsWithSemi(st: PState, c: CompoundNode, i: nat)
    requires 1 <= i < |c.children| && IsCompound(c) && After(st, RestTokens(c, i)).Some?
    ensures st.cur == Semi
  {
    var s1 := FirstToken(st, Semi, StmtTokens(c.children[i]) + RestTokens(c, i + 1));
  }

  /** The statement_list loop from the statements in acc on, as the lemmas below go through it turn by turn. */
  function LoopFrom(acc: seq<Ast>, st: PState): Parsed<seq<Ast>> {
    StatementLoop(acc, st)
  }

  /**
    The statement_list loop over SEMI and the printed children from i on: it
    adds them to the statements parsed so far, giving all of them.
  */
  lemma {:induction false} LoopRoundTrip(acc: seq<Ast>, all: seq<Ast>, st: PState, c: CompoundNode, i: nat, last: PState)
    requires 1 <= i <= |c.children| && IsCompound(c) && all == acc + c.children[i..]
    requires After(st, RestTokens(c, i)) == Some(last) && last.cur.kind == END
    ensures LoopFrom(acc, st) == Ok((all, last))
    decreases c, 1, |c.children| - i, 1
  {
    if i == |c.children| {
      LoopEnd(acc, all, st, c, last);
    } else {
      var s2 := LoopHead(acc, st, c, i, last);
      AppendNext(acc, c.children, i);
      LoopRoundTrip(acc + [c.children[i]], all, s2, c, i + 1, last);
    }
  }

  /** After the last child the loop stops: END is not a SEMI. */
  lemma LoopEnd(acc: seq<Ast>, all: seq<Ast>, st: PState, c: CompoundNode, last: PState)
    requires IsCompound(c) && all == acc + c.children[|c.children|..]
    requires After(st, RestTokens(c, |c.children|)) == Some(last) && last.cur.kind == END
    ensures LoopFrom(acc, st) == Ok((all, last))
  {
    assert RestTokens(c, |c.children|) == [];
    ListStop(acc, st);
    assert all == acc;
  }

  /** One turn of the statement_list loop: SEMI, then the i-th child read back. */
  lemma LoopHead(acc: seq<Ast>, st: PState, c: CompoundNode, i: nat, last: PState) returns (s2: PState)
    requires 1 <= i < |c.children| && IsCompound(c)
    requires After(st, RestTokens(c, i)) == Some(last) && last.cur.kind == END
    ensures LoopFrom(acc, st) == LoopFrom(acc + [c.children[i]], s2)
    ensures After(s2, RestTokens(c, i + 1)) == Some(last)
    decreases c, 1, |c.children| - i, 0
  {
    var s1;
    s1, s2 := LoopLayout(st, c, i, last);
    StatementRoundTrip(s1, c.children[i]);
    ListStep(acc, st, s1, c.children[i], s2);
  }

  /** The states around SEMI and the i-th child in the printed rest of a compound statement. */
  lemma LoopLayout(st: PState, c: CompoundNode, i: nat, last: PState) returns (s1: PState, s2: PState)
    requires 1 <= i < |c.children| && IsCompound(c)
    requires After(st, RestTokens(c, i)) == Some(last) && last.cur.kind == END
    ensures st.cur.kind == SEMI && Eat(st, SEMI) == Ok(s1)
    ensures After(s1, StmtTokens(c.children[i])) == Some(s2)
    ensures s2.cur.kind == SEMI || s2.cur.kind == END
    ensures After(s2, RestTokens(c, i + 1)) == Some(last)
  {
    RestShape(c, i);
    s1, s2 := SemiLayout(st, StmtTokens(c.children[i]), RestTokens(c, i + 1), last);
  }

  /** The printed rest from i on: SEMI, the i-th child, then the rest from i + 1, which starts with SEMI if anything. */
  lemma RestShape(c: CompoundNode, i: nat)
    requires 1 <= i < |c.children| && IsCompound(c)
    ensures RestTokens(c, i) == [Semi] + (StmtTokens(c.children[i]) + RestTokens(c, i + 1))
    ensures RestTokens(c, i + 1) == [] || RestTokens(c, i + 1)[0] == Semi
  {
  }

  /** SEMI, a part, and what follows it, which is empty before END or starts with SEMI. */
  lemma SemiLayout(st: PState, part: seq<Token>, rest: seq<Token>, last: PState) returns (s1: PState, s2: PState)
    requires After(st, [Semi] + (part + rest)) == Some(last) && last.cur.kind == END
    requires rest == [] || rest[0] == Semi
    ensures st.cur.kind == SEMI && Eat(st, SEMI) == Ok(s1)
    ensures After(s1, part) == Some(s2) && After(s2, rest) == Some(last)
    ensures s2.cur.kind == SEMI || s2.cur.kind == END
  {
    s1 := FirstToken(st, Semi, part + rest);
    s2 := Between(s1, part, rest);
    if rest != [] {
      var s3 := FirstToken(s2, Semi, rest[1..]);
      assert [Semi] + rest[1..] == rest;
    }
  }

  // ---------------------------------------------------------------------------
  // Declarations, blocks and programs round trip

  lemma {:induction false} DeclarationsRoundTrip(acc: seq<VarDecl>, st: PState, ds: seq<VarDecl>, last: PState)
    requires AreDeclarations(ds)
    requires After(st, DeclListTokens(ds)) == Some(last) && last.cur.kind != ID
    ensures DeclarationLoop(acc, st) == Ok((acc + ds, last))
    decreases |ds|
  {
    if ds == [] {
      assert acc + ds == acc;
      DeclarationStop(acc, st);
    } else {
      var d := ds[0];
      assert DeclListTokens(ds) == DeclTokens(d) + DeclListTokens(ds[1..]);
      var s4 := DeclarationHead(acc, st, d, DeclListTokens(ds[1..]));
      DeclarationsRoundTrip(acc + [d], s4, ds[1..], last);
      AppendNext(acc, ds, 0);
      assert ds[0..] == ds;
    }
  }

  /** One printed declaration is one pass of the declarations loop. */
  lemma DeclarationHead(acc: seq<VarDecl>, st: PState, d: VarDecl, more: seq<Token>) returns (s4: PState)
    requires IsDeclaration(d) && After(st, DeclTokens(d) + more).Some?
    ensures DeclarationLoop(acc, st) == DeclarationLoop(acc + [d], s4)
    ensures After(s4, more) == After(st, DeclTokens(d) + more)
  {
    var s1, s2, s3, s := DeclarationLayout(st, d, more);
    SingleDeclaration(st, s1, s2, s3);
    DeclarationStep(acc, st, [d], s3, s);
    s4 := s;
  }

  /** The states between the four tokens name : type ; of one declaration. */
  lemma DeclarationLayout(st: PState, d: VarDecl, more: seq<Token>) returns (s1: PState, s2: PState, s3: PState, s4: PState)
    requires IsDeclaration(d) && After(st, DeclTokens(d) + more).Some?
    ensures st.cur.kind == ID && Eat(st, ID) == Ok(s1) && st.cur == d.varNode.token
    ensures s1.cur.kind == COLON && Eat(s1, COLON) == Ok(s2)
    ensures (s2.cur.kind == INTEGER || s2.cur.kind == REAL) && Eat(s2, s2.cur.kind) == Ok(s3) && s2.cur == d.typeNode.token
    ensures s3.cur.kind == SEMI && Eat(s3, SEMI) == Ok(s4)
    ensures After(s4, more) == After(st, DeclTokens(d) + more)
  {
    var ts := DeclTokens(d);
    var m := Between(st, ts, more);
    assert ts[0..] == ts;
    s1 := Next(st, ts, 0);
    s2 := Next(s1, ts, 1);
    s3 := Next(s2, ts, 2);
    s4 := Next(s3, ts, 3);
    assert ts[4..] == [];
  }

  /** Parsing the printed tokens of a block gives it back. */
  lemma BlockRoundTrip(st: PState, b: Block)
    requires IsBlock(b) && After(st, BlockTokens(b)).Some?
    ensures ParseBlock(st) == Ok((b, After(st, BlockTokens(b)).value))
  {
    var c := b.compoundStatement;
    var body := CompoundTokens(c);
    var s1 := Between(st, DeclarationsTokens(b.declaration), body);
    assert body == [BeginKeyword] + body[1..];
    var s2 := FirstToken(s1, BeginKeyword, body[1..]);
    if b.declaration == [] {
      assert ParseDeclarations(st) == Ok(([], st));
    } else {
      var s0 := FirstToken(st, VarKeyword, DeclListTokens(b.declaration));
      DeclarationsStart(st, s0);
      DeclarationsRoundTrip([], s0, b.declaration, s1);
      assert [] + b.declaration == b.declaration;
    }
    CompoundRoundTrip(s1, c);
    BlockRule(st, b.declaration, s1);
  }

  /** Parsing the printed tokens of a program gives it back. */
  lemma ProgramRoundTrip(st: PState, p: Program)
    requires IsBlock(p.block) && After(st, ProgramTokens(p)).Some?
    ensures ParseProgram(st) == Ok((p, After(st, ProgramTokens(p)).value))
  {
    var head := [ProgramKeyword, Token(ID, p.name), Semi];
    var s4 := Between(st, head + BlockTokens(p.block), [Dot]);
    var s3 := Between(st, head, BlockTokens(p.block));
    assert head[0..] == head;
    var s1 := Next(st, head, 0);
    var s2 := Next(s1, head, 1);
    var s3' := Next(s2, head, 2);
    assert head[3..] == [];
    assert s3' == s3;
    AfterOne(s4, Dot);
    BlockRoundTrip(s3, p.block);
    ProgramRule(st, s1, s2, s3, p.block, s4);
  }

  // ---------------------------------------------------------------------------
  // From the token stream

  /** The state after the parser has fetched the tokens before index k. */
  function At(input: Stream, k: nat): PState
    requires Fetch(input, k).Ok?
  {
    PState(input, k + 1, Fetch(input, k).value)
  }

  /** A stream that holds ts from index k on delivers them one by one. */
  lemma {:induction false} Delivers(input: Stream, k: nat, ts: seq<Token>)
    requires k + |ts| <= |input.tokens| && input.tokens[k..k + |ts|] == ts
    requires Fetch(input, k + |ts|).Ok?
    ensures Fetch(input, k).Ok? && After(At(input, k), ts) == Some(At(input, k + |ts|))
    decreases |ts|
  {
    if ts != [] {
      assert input.tokens[k] == ts[0];
      assert input.tokens[k + 1..k + |ts|] == ts[1..];
      Delivers(input, k + 1, ts[1..]);
      assert Eat(At(input, k), ts[0].kind) == Ok(At(input, k + 1));
    }
  }

  /**
    The parser reads back every program it can build from the tokens printed
    for it, followed by EOF.
  */
  lemma ParseStreamRoundTrip(p: Program)
    requires IsBlock(p.block)
    ensures ParseStream(Stream(ProgramTokens(p), false)) == Ok(p)
  {
    var ts := ProgramTokens(p);
    var input := Stream(ts, false);
    assert input.tokens[0..|ts|] == ts;
    Delivers(input, 0, ts);
    ProgramRoundTrip(At(input, 0), p);
  }
}
