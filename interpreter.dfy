/**
  The visitor of src/InterpreterAlpha/InterpreterAlpha.java: an object holding
  the tree and a mutable global scope, whose visit methods update the scope as
  they go. Each method is proved to leave the scope the statement semantics of
  semantics.dfy computes, and to fail exactly when that semantics fails.
*/
module Interpreting {
  import opened Results
  import opened Semantics

  /** The outcome of a visit together with the scope it left, as a semantic result. */
  function Ran(o: Outcome<RuntimeError>, scope: Env): Result<Env, RuntimeError> {
    if o.Pass? then Ok(scope) else Err(o.error)
  }

  class Interpreter {
    const tree: Option<Stmt>
    var globalScope: Env

    constructor (tree: Option<Stmt>)
      ensures this.tree == tree && globalScope == map[]
    {
      this.tree := tree;
      globalScope := map[];
    }

    /** Run the whole tree; the scope is what would then be written out. */
    method Interpret() returns (r: Outcome<RuntimeError>)
      modifies this
      ensures tree.None? ==> r == Fail(NoTree) && globalScope == old(globalScope)
      ensures tree.Some? ==> Ran(r, globalScope) == Exec(tree.value, old(globalScope))
    {
      if tree.None? {
        return Fail(NoTree);
      }
      r := Visit(tree.value);
    }

    /** Dispatch on the kind of statement node. */
    method Visit(node: Stmt) returns (r: Outcome<RuntimeError>)
      modifies this
      decreases Size(node), 0
      ensures Ran(r, globalScope) == Exec(node, old(globalScope))
    {
      match node {
        case Program(ss) =>
          r := VisitProgram(ss);
        case Loop(x, ss) =>
          r := VisitFor(x, ss);
        case Assign(x, e) =>
          r := VisitAssign(x, e);
        case NoOp =>
          r := Pass;
        case Compound(_) =>
          r := Fail(NoVisitFunction);
        case Block(_, _) =>
          r := Fail(NoVisitFunction);
        case VarDecl(_, _) =>
          r := Fail(NoVisitFunction);
      }
    }

    /** Visit the statements in order; the first failure ends the run. */
    method VisitProgram(statements: seq<Stmt>) returns (r: Outcome<RuntimeError>)
      modifies this
      decreases SizeSeq(statements), 1
      ensures Ran(r, globalScope) == ExecSeq(statements, old(globalScope))
    {
      var i := 0;
      while i < |statements|
        invariant 0 <= i <= |statements|
        invariant ExecSeq(statements[i..], globalScope) == ExecSeq(statements, old(globalScope))
      {
        SizeSeqElement(statements, i);
        assert statements[i..][0] == statements[i] && statements[i..][1..] == statements[i + 1..];
        var o := Visit(statements[i]);
        if o.Fail? {
          return o;
        }
        i := i + 1;
      }
      return Pass;
    }

    /**
      Read the loop variable once, then visit the body once for each value of
      a counter running from 1 up to it.
    */
    method VisitFor(variable: string, statements: seq<Stmt>) returns (r: Outcome<RuntimeError>)
      modifies this
      decreases SizeSeq(statements), 1
      ensures Ran(r, globalScope) == Exec(Loop(variable, statements), old(globalScope))
    {
      if variable !in globalScope {
        return Fail(LoopVariableMissing);
      }
      var endPoint: int := globalScope[variable];
      var tmp: int := 1;
      while tmp <= endPoint
        invariant 1 <= tmp <= if endPoint < 1 then 1 else endPoint + 1
        invariant RunLoop(statements, endPoint - tmp + 1, globalScope)
               == Exec(Loop(variable, statements), old(globalScope))
        decreases endPoint - tmp
      {
        ghost var before := globalScope;
        var i := 0;
        while i < |statements|
          invariant 0 <= i <= |statements|
          invariant ExecSeq(statements[i..], globalScope) == ExecSeq(statements, before)
        {
          SizeSeqElement(statements, i);
          assert statements[i..][0] == statements[i] && statements[i..][1..] == statements[i + 1..];
          var o := Visit(statements[i]);
          if o.Fail? {
            return o;
          }
          i := i + 1;
        }
        tmp := tmp + 1;
      }
      return Pass;
    }

    /** Evaluate the right-hand side, then bind it; a failure binds nothing. */
    method VisitAssign(name: string, value: Expr) returns (r: Outcome<RuntimeError>)
      modifies this
      ensures r.Pass? ==> Eval(value, old(globalScope)).Ok?
                          && globalScope == old(globalScope)[name := Eval(value, old(globalScope)).value]
      ensures r.Fail? ==> Eval(value, old(globalScope)) == Err(r.error) && globalScope == old(globalScope)
    {
      var v := Eval(value, globalScope);
      if v.Err? {
        return Fail(v.error);
      }
      globalScope := globalScope[name := v.value];
      return Pass;
    }
  }

  /** An element of a statement list is no larger than the list. */
  lemma {:induction false} SizeSeqElement(ss: seq<Stmt>, i: nat)
    requires i < |ss|
    ensures Size(ss[i]) <= SizeSeq(ss[i..]) <= SizeSeq(ss)
    decreases i
  {
    if i > 0 {
      SizeSeqElement(ss[1..], i - 1);
      assert ss[1..][i - 1] == ss[i] && ss[1..][i - 1..] == ss[i..];
    }
  }
}
