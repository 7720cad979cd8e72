/**
  What the tree-walking interpreter of src/InterpreterAlpha/InterpreterAlpha.java
  computes, as functions: expressions evaluate to Java ints over the global
  scope, statements turn one scope into the next. This variant of the
  interpreter walks its own tree shape (a Program holding a statement list,
  a count-style Loop holding statements) rather than the parser's.
  The class in interpreter.dfy is proved to compute exactly these.
*/
module Semantics {
  import opened Results
  import opened Tokens
  import opened JavaInt

  /** Expression nodes: the operators keep their tokens, as in the Java classes. */
  datatype Expr =
    | BinOp(left: Expr, op: Token, right: Expr)
    | UnaryOp(op: Token, expr: Expr)
    | Num(value: Int32)
    | Var(name: string)

  /** Statement nodes; Compound, Block and VarDecl have no visit method. */
  datatype Stmt =
    | Program(statements: seq<Stmt>)
    | Loop(variable: string, statements: seq<Stmt>)
    | Assign(left: string, right: Expr)
    | NoOp
    | Compound(children: seq<Stmt>)
    | Block(declarations: seq<Stmt>, body: Stmt)
    | VarDecl(name: string, typeName: string)

  /** GLOBAL_SCOPE: variable name to value. */
  type Env = map<string, Int32>

  datatype RuntimeError =
    | Unbound(name: string)     // "Variable has no value!"
    | DivideByZero              // java.lang.ArithmeticException
    | IncorrectBinaryOperator   // "Incorrect binary operator!"
    | IncorrectUnaryOperator    // "Incorrect unary operator!"
    | NoVisitFunction           // "No visit function for the type of node!"
    | LoopVariableMissing       // "No variable found in for_loop!"
    | NoTree                    // "Have no tree to trace!"

  /** The names an expression reads. */
  function FreeVars(e: Expr): set<string> {
    match e
    case BinOp(l, _, r) => FreeVars(l) + FreeVars(r)
    case UnaryOp(_, x) => FreeVars(x)
    case Num(_) => {}
    case Var(x) => {x}
  }

  predicate IsBinaryOperator(k: TokenKind) { k == PLUS || k == MINUS || k == MUL || k == DIV }

  /** One arithmetic step on ints: wrap-around, division truncating toward zero. */
  function Apply(k: TokenKind, a: Int32, b: Int32): (r: Result<Int32, RuntimeError>)
    requires IsBinaryOperator(k)
    ensures r.Err? <==> k == DIV && b == 0
    ensures r.Err? ==> r.error == DivideByZero
    ensures r.Ok? ==> (r.value - (if k == PLUS then a + b else if k == MINUS then a - b
                                   else if k == MUL then a * b else TruncDiv(a, b))) % Modulus == 0
  {
    match k
    case PLUS => Ok(Wrap(a + b))
    case MINUS => Ok(Wrap(a - b))
    case MUL => Ok(Wrap(a * b))
    case DIV => if b == 0 then Err(DivideByZero) else Ok(Quotient(a, b))
  }

  /** visit on an expression node: visit_Num, visit_Var, visit_UnaryOp, visit_BinOp. */
  function Eval(e: Expr, env: Env): (r: Result<Int32, RuntimeError>)
    ensures r.Ok? ==> FreeVars(e) <= env.Keys
    ensures r.Err? && r.error.Unbound? ==> r.error.name in FreeVars(e) && r.error.name !in env
    ensures r.Err? ==> r.error.Unbound? || r.error == DivideByZero
                       || r.error == IncorrectBinaryOperator || r.error == IncorrectUnaryOperator
  {
    match e
    case Num(v) => Ok(v)
    case Var(x) => if x in env then Ok(env[x]) else Err(Unbound(x))
    case UnaryOp(op, x) =>
      if op.kind == PLUS then
        Eval(x, env)
      else if op.kind == MINUS then
        var v :- Eval(x, env);
        Ok(Negate(v))
      else
        Err(IncorrectUnaryOperator)
    case BinOp(l, op, r) =>
      if IsBinaryOperator(op.kind) then
        var a :- Eval(l, env);
        var b :- Eval(r, env);
        Apply(op.kind, a, b)
      else
        Err(IncorrectBinaryOperator)
  }

  /** The names a statement may bind. */
  function Assigned(s: Stmt): set<string> {
    match s
    case Program(ss) => AssignedSeq(ss)
    case Loop(_, ss) => AssignedSeq(ss)
    case Assign(x, _) => {x}
    case _ => {}
  }

  function AssignedSeq(ss: seq<Stmt>): set<string> {
    if ss == [] then {} else Assigned(ss[0]) + AssignedSeq(ss[1..])
  }

  function Size(s: Stmt): nat {
    match s
    case Program(ss) => 1 + SizeSeq(ss)
    case Loop(_, ss) => 1 + SizeSeq(ss)
    case _ => 1
  }

  function SizeSeq(ss: seq<Stmt>): nat {
    if ss == [] then 0 else Size(ss[0]) + SizeSeq(ss[1..])
  }

  /** visit on a statement node: the scope the statement leaves, or the error it raises. */
  function Exec(s: Stmt, env: Env): (r: Result<Env, RuntimeError>)
    decreases Size(s), 0, 0
    ensures r.Err? ==> r.error != NoTree
  {
    match s
    case Program(ss) => ExecSeq(ss, env)
    case Loop(x, ss) =>
      if x in env then RunLoop(ss, env[x], env) else Err(LoopVariableMissing)
    case Assign(x, e) =>
      var v :- Eval(e, env);
      Ok(env[x := v])
    case NoOp => Ok(env)
    case Compound(_) => Err(NoVisitFunction)
    case Block(_, _) => Err(NoVisitFunction)
    case VarDecl(_, _) => Err(NoVisitFunction)
  }

  /** Statements one after the other, stopping at the first error. */
  function ExecSeq(ss: seq<Stmt>, env: Env): (r: Result<Env, RuntimeError>)
    decreases SizeSeq(ss), 1, 0
    ensures r.Err? ==> r.error != NoTree
  {
    if ss == [] then Ok(env)
    else
      var env1 :- Exec(ss[0], env);
      ExecSeq(ss[1..], env1)
  }

  /** The loop body run n times (not at all when n <= 0). */
  function RunLoop(body: seq<Stmt>, n: int, env: Env): (r: Result<Env, RuntimeError>)
    decreases SizeSeq(body), 2, if n <= 0 then 0 else n
    ensures r.Err? ==> r.error != NoTree
  {
    if n <= 0 then Ok(env)
    else
      var env1 :- ExecSeq(body, env);
      RunLoop(body, n - 1, env1)
  }

  /** interpret: run the tree from an empty scope, or fail when there is none. */
  function Interpret(tree: Option<Stmt>): (r: Result<Env, RuntimeError>)
    ensures r == Err(NoTree) <==> tree.None?
  {
    match tree
    case None => Err(NoTree)
    case Some(t) => Exec(t, map[])
  }
}
