/**
  What the interpreter promises, proved about the semantics: the scope an
  assignment leaves, left-to-right evaluation, that an expression only
  depends on the variables it names, and that a loop reads its count once
  and runs its body exactly that many times.
*/
module SemanticsFacts {
  import opened Results
  import opened Tokens
  import opened JavaInt
  import opened Semantics

  const PlusOp := Token(PLUS, "+")
  const MinusOp := Token(MINUS, "-")
  const TimesOp := Token(MUL, "*")
  const DivOp := Token(DIV, "DIV")

  /** Negating twice gives the value back, Integer.MIN_VALUE included. */
  lemma NegateTwice(v: Int32)
    ensures Negate(Negate(v)) == v
  {
    if v != MinInt {
      assert Negate(v) == -v;
    }
  }

  /** An assignment binds its target to the value of its right-hand side and touches nothing else. */
  lemma AssignBindsOnlyItsTarget(x: string, e: Expr, env: Env)
    ensures Exec(Assign(x, e), env).Ok? <==> Eval(e, env).Ok?
    ensures Eval(e, env).Err? ==> Exec(Assign(x, e), env) == Err(Eval(e, env).error)
    ensures Eval(e, env).Ok? ==>
              && Exec(Assign(x, e), env).value.Keys == env.Keys + {x}
              && Exec(Assign(x, e), env).value[x] == Eval(e, env).value
              && forall y :: y in env && y != x ==> Exec(Assign(x, e), env).value[y] == env[y]
  {
  }

  /**
    What a run that succeeds keeps: every binding it was given, no new name
    but the given ones, and the value of every name outside them.
  */
  predicate Keeps(env: Env, after: Env, names: set<string>) {
    && env.Keys <= after.Keys <= env.Keys + names
    && forall y :: y in env && y !in names ==> after[y] == env[y]
  }

  /** A statement binds only the names it assigns and never unbinds one. */
  lemma {:induction false} ExecFrame(s: Stmt, env: Env)
    ensures Exec(s, env).Ok? ==> Keeps(env, Exec(s, env).value, Assigned(s))
    decreases Size(s), 0, 0
  {
    match s
    case Program(ss) =>
      ExecSeqFrame(ss, env);
    case Loop(x, ss) =>
      if x in env {
        RunLoopFrame(ss, env[x], env);
      }
    case _ =>
  }

  lemma {:induction false} ExecSeqFrame(ss: seq<Stmt>, env: Env)
    ensures ExecSeq(ss, env).Ok? ==> Keeps(env, ExecSeq(ss, env).value, AssignedSeq(ss))
    decreases SizeSeq(ss), 1, 0
  {
    if ss != [] {
      ExecFrame(ss[0], env);
      if Exec(ss[0], env).Ok? {
        ExecSeqFrame(ss[1..], Exec(ss[0], env).value);
      }
    }
  }

  lemma {:induction false} RunLoopFrame(body: seq<Stmt>, n: int, env: Env)
    ensures RunLoop(body, n, env).Ok? ==> Keeps(env, RunLoop(body, n, env).value, AssignedSeq(body))
    decreases SizeSeq(body), 2, if n <= 0 then 0 else n
  {
    if n > 0 {
      ExecSeqFrame(body, env);
      if ExecSeq(body, env).Ok? {
        RunLoopFrame(body, n - 1, ExecSeq(body, env).value);
      }
    }
  }

  /** The final scope of a program holds exactly the names it assigned on the way. */
  lemma InterpretBindsOnlyAssigned(t: Stmt)
    ensures Interpret(None) == Err(NoTree)
    ensures Interpret(Some(t)).Ok? ==> Interpret(Some(t)).value.Keys <= Assigned(t)
  {
    ExecFrame(t, map[]);
  }

  /** An operator is checked before its operands, and the left operand is evaluated first. */
  lemma OperandsLeftToRight(l: Expr, op: Token, r: Expr, env: Env)
    ensures !IsBinaryOperator(op.kind) ==> Eval(BinOp(l, op, r), env) == Err(IncorrectBinaryOperator)
    ensures IsBinaryOperator(op.kind) && Eval(l, env).Err? ==> Eval(BinOp(l, op, r), env) == Eval(l, env)
    ensures IsBinaryOperator(op.kind) && Eval(l, env).Ok? && Eval(r, env).Err? ==>
              Eval(BinOp(l, op, r), env) == Eval(r, env)
  {
  }

  /** An unbound name on the left is reported even when the right divides by zero. */
  lemma UnboundBeforeDivisionByZero(env: Env)
    requires "u" !in env
    ensures Eval(BinOp(Var("u"), PlusOp, BinOp(Num(1), DivOp, Num(0))), env) == Err(Unbound("u"))
    ensures Eval(BinOp(Num(1), DivOp, Num(0)), env) == Err(DivideByZero)
  {
  }

  /** DIV truncates toward zero and + and DIV wrap around on overflow. */
  lemma JavaArithmetic(env: Env)
    ensures Eval(BinOp(Num(-7), DivOp, Num(2)), env) == Ok(-3)
    ensures Eval(BinOp(Num(7), DivOp, Num(-2)), env) == Ok(-3)
    ensures Eval(BinOp(Num(MaxInt), PlusOp, Num(1)), env) == Ok(MinInt)
    ensures Eval(BinOp(Num(MinInt), DivOp, Num(-1)), env) == Ok(MinInt)
  {
    assert TruncDiv(-7, 2) == -3 by { assert -7 == -3 * 2 + TruncRem(-7, 2); }
    assert TruncDiv(7, -2) == -3 by { assert 7 == -3 * -2 + TruncRem(7, -2); }
    assert TruncDiv(MinInt, -1) == -MinInt by { assert MinInt == -MinInt * -1 + TruncRem(MinInt, -1); }
    assert Wrap(-MinInt) == MinInt by { WrapUnique(-MinInt, MinInt); }
    assert Wrap(MaxInt + 1) == MinInt by { WrapUnique(MaxInt + 1, MinInt); }
  }

  /** One unary minus: negate a value with wrap-around, pass an error on. */
  lemma Negation(e: Expr, env: Env)
    ensures Eval(UnaryOp(MinusOp, e), env) ==
              if Eval(e, env).Ok? then Ok(Negate(Eval(e, env).value)) else Eval(e, env)
  {
  }

  /** Unary minus twice is the identity; unary plus always is. */
  lemma DoubleNegation(e: Expr, env: Env)
    ensures Eval(UnaryOp(MinusOp, UnaryOp(MinusOp, e)), env) == Eval(e, env)
    ensures Eval(UnaryOp(PlusOp, e), env) == Eval(e, env)
  {
    Negation(e, env);
    Negation(UnaryOp(MinusOp, e), env);
    if Eval(e, env).Ok? {
      NegateTwice(Eval(e, env).value);
    }
  }

  /** Two scopes that agree on an expression's names give it the same value (or the same error). */
  lemma {:induction false} EvalReadsOnlyFreeVars(e: Expr, env1: Env, env2: Env)
    requires forall x :: x in FreeVars(e) ==> (x in env1 <==> x in env2)
    requires forall x :: x in FreeVars(e) && x in env1 && x in env2 ==> env1[x] == env2[x]
    ensures Eval(e, env1) == Eval(e, env2)
  {
    match e
    case Num(_) =>
    case Var(_) =>
    case UnaryOp(_, x) =>
      EvalReadsOnlyFreeVars(x, env1, env2);
    case BinOp(l, _, r) =>
      EvalReadsOnlyFreeVars(l, env1, env2);
      EvalReadsOnlyFreeVars(r, env1, env2);
  }

  /** Running a + b is running a, then b on what a left; an error in a skips b. */
  lemma {:induction false} ExecSeqAppend(a: seq<Stmt>, b: seq<Stmt>, env: Env)
    ensures ExecSeq(a, env).Err? ==> ExecSeq(a + b, env) == ExecSeq(a, env)
    ensures ExecSeq(a, env).Ok? ==> ExecSeq(a + b, env) == ExecSeq(b, ExecSeq(a, env).value)
    decreases |a|
  {
    if a == [] {
      assert a + b == b;
    } else {
      assert (a + b)[0] == a[0] && (a + b)[1..] == a[1..] + b;
      if Exec(a[0], env).Ok? {
        ExecSeqAppend(a[1..], b, Exec(a[0], env).value);
      }
    }
  }

  /** The body written out n times in a row. */
  function Repeat(body: seq<Stmt>, n: nat): (r: seq<Stmt>)
    ensures |r| == n * |body|
  {
    if n == 0 then [] else body + Repeat(body, n - 1)
  }

  /** A loop run n times is the body repeated n times as one statement list. */
  lemma {:induction false} LoopIsRepetition(body: seq<Stmt>, n: nat, env: Env)
    ensures RunLoop(body, n, env) == ExecSeq(Repeat(body, n), env)
    decreases n
  {
    if n > 0 {
      assert Repeat(body, n) == body + Repeat(body, n - 1);
      ExecSeqAppend(body, Repeat(body, n - 1), env);
      if ExecSeq(body, env).Ok? {
        LoopIsRepetition(body, n - 1, ExecSeq(body, env).value);
      }
    }
  }

  /**
    A Loop statement reads its variable once, on entry, and runs the body
    that many times; a count of zero or below leaves the scope as it was.
  */
  lemma LoopRunsBodyCountTimes(x: string, body: seq<Stmt>, env: Env)
    requires x in env
    ensures Exec(Loop(x, body), env) == ExecSeq(Repeat(body, if env[x] <= 0 then 0 else env[x] as nat), env)
    ensures env[x] <= 0 ==> Exec(Loop(x, body), env) == Ok(env)
  {
    LoopIsRepetition(body, if env[x] <= 0 then 0 else env[x] as nat, env);
  }

  /** y := y + 1 */
  function Increment(y: string): Stmt {
    Assign(y, BinOp(Var(y), PlusOp, Num(1)))
  }

  /** Java's n + 1 on ints. */
  function AddOne(v: Int32): Int32 { Wrap(v as int + 1) }

  /** AddOne applied n times. */
  function AddOnes(v: Int32, n: nat): Int32
    decreases n
  {
    if n == 0 then v else AddOnes(AddOne(v), n - 1)
  }

  /** Adding one n times is adding n, wrapped. */
  lemma {:induction false} AddOnesWraps(v: Int32, n: nat)
    ensures AddOnes(v, n) == Wrap(v as int + n)
    decreases n
  {
    if n == 0 {
      assert Wrap(v as int + 0) == v;
    } else {
      AddOnesWraps(AddOne(v), n - 1);
      WrapAdd(v as int + 1, n - 1);
      assert v as int + 1 + (n - 1) == v as int + n;
    }
  }

  /** One pass of x := 0; y := y + 1. */
  lemma ResetAndCountOnce(x: string, y: string, env: Env)
    requires x != y && y in env
    ensures ExecSeq([Assign(x, Num(0)), Increment(y)], env) == Ok(env[x := 0][y := AddOne(env[y])])
  {
    var body := [Assign(x, Num(0)), Increment(y)];
    var env0 := env[x := 0];
    assert Exec(body[0], env) == Ok(env0);
    assert Eval(BinOp(Var(y), PlusOp, Num(1)), env0) == Ok(AddOne(env[y]));
    assert body[1..][1..] == [];
    assert ExecSeq(body[1..], env0) == Ok(env0[y := AddOne(env[y])]);
  }

  /** A body with the effect of x := 0; y := y + 1, run n times, adds one to y n times. */
  lemma {:induction false} ResetAndCount(x: string, y: string, body: seq<Stmt>, n: nat, env: Env)
    requires x != y && y in env
    requires forall e: Env {:trigger ExecSeq(body, e)} :: y in e ==>
               ExecSeq(body, e) == Ok(e[x := 0][y := AddOne(e[y])])
    ensures RunLoop(body, n, env).Ok?
    ensures y in RunLoop(body, n, env).value
    ensures RunLoop(body, n, env).value[y] == AddOnes(env[y], n)
    decreases n
  {
    if n > 0 {
      var env1 := env[x := 0][y := AddOne(env[y])];
      assert ExecSeq(body, env) == Ok(env1);
      assert RunLoop(body, n, env) == RunLoop(body, n - 1, env1);
      ResetAndCount(x, y, body, n - 1, env1);
    }
  }

  /**
    Resetting the loop variable inside the body does not shorten the loop:
    LOOP x DO x := 0; y := y + 1 END adds the entry value of x to y.
  */
  lemma CountIsReadOnce(x: string, y: string, env: Env)
    requires x != y && x in env && y in env
    ensures Exec(Loop(x, [Assign(x, Num(0)), Increment(y)]), env).Ok?
    ensures y in Exec(Loop(x, [Assign(x, Num(0)), Increment(y)]), env).value
    ensures Exec(Loop(x, [Assign(x, Num(0)), Increment(y)]), env).value[y]
         == Wrap(env[y] as int + if env[x] <= 0 then 0 else env[x] as int)
  {
    var body := [Assign(x, Num(0)), Increment(y)];
    var n: nat := if env[x] <= 0 then 0 else env[x] as nat;
    forall e: Env | y in e
      ensures ExecSeq(body, e) == Ok(e[x := 0][y := AddOne(e[y])])
    {
      ResetAndCountOnce(x, y, e);
    }
    ResetAndCount(x, y, body, n, env);
    AddOnesWraps(env[y], n);
  }

  /** A program runs its statements in order from an empty scope. */
  lemma ProgramRunsInOrder(first: Stmt, rest: seq<Stmt>)
    ensures Interpret(Some(Program([first] + rest)))
         == (if Exec(first, map[]).Ok? then ExecSeq(rest, Exec(first, map[]).value) else Exec(first, map[]))
  {
    ExecSeqAppend([first], rest, map[]);
    assert [first][1..] == [];
  }
}
