/**
  The typed syntax tree the parser of src/InterpreterAlpha/Parser.java builds.
  Where a Java field has a node class as its type (Assign.left is a Var,
  Block.declaration a list of VarDecl), the Dafny field has that datatype.
*/
module Ast {
  import opened Tokens
  import opened JavaInt

  /** A variable reference; Java's Var.value is the token's lexeme. */
  datatype VarNode = VarNode(token: Token) {
    function Value(): string { token.lexeme }
  }

  /** A type name in a declaration (INTEGER or REAL). */
  datatype TypeNode = TypeNode(token: Token) {
    function Value(): string { token.lexeme }
  }

  /** One declared variable with its type. */
  datatype VarDecl = VarDecl(varNode: VarNode, typeNode: TypeNode)

  /** A node of an expression or a statement. */
  datatype Ast =
    | BinOp(left: Ast, op: Token, right: Ast)
    | UnaryOp(op: Token, expr: Ast)
    | Num(token: Token)
    | Var(node: VarNode)
    | Compound(compound: CompoundNode)
    | Assign(target: VarNode, op: Token, value: Ast)
    | ForStatement(compoundStatement: CompoundNode, endPoint: Int32, startPoint: Int32, variable: VarNode)
    | NoOp

  /** BEGIN … END: the statements in source order. */
  datatype CompoundNode = CompoundNode(children: seq<Ast>)

  datatype Block = Block(declaration: seq<VarDecl>, compoundStatement: CompoundNode)

  /** The root: the program's name and its block. */
  datatype Program = Program(name: string, block: Block)
}
