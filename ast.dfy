/**
 * The syntax tree shared by the parser and the code generator.
 *
 * parse.c tags the nodes it builds with token types (TK_EQ, TK_NE, TK_LE,
 * '<', '+', '-', '*', '/') and with ND_NUM, while codegen.c dispatches on
 * ND_EQ, ND_NE, ND_LE, '<', ... and on further kinds that no parser shown
 * here builds.  One datatype covers every kind codegen.c handles; a node
 * parse.c builds with TK_EQ, TK_NE or TK_LE is taken to be the node codegen.c
 * reads as ND_EQ, ND_NE or ND_LE (the headers that would say so are not part
 * of this model).
 */
module Ast {

  datatype Option<T> = None | Some(value: T)

  /** The operators of binary nodes: '+', '-', '*', '/', ND_EQ, ND_NE, ND_LE
      and '<'.  There is no greater-than node: the parser swaps operands. */
  datatype BinOp = Add | Sub | Mul | Div | Eq | Ne | Le | Lt

  /** Node kinds and the fields codegen.c reads for each. */
  datatype Node =
    | Num(value: int)                                  // ND_NUM: value
    | Ident(name: string)                              // ND_IDENT: name
    | Assign(lhs: Node, rhs: Node)                     // '=': lhs, rhs
    | Binary(op: BinOp, lhs: Node, rhs: Node)          // operators: lhs, rhs
    | If(cond: Node, conseq: Node, alt: Option<Node>)  // ND_IF: condition, then, els
    | Return(expr: Node)                               // ND_RETURN: lhs
    | Block(stmts: seq<Node>)                          // ND_BLOCK: stmts_in_block
    | Call(callee: string, args: seq<Node>)            // ND_FUNCCALL: name, args
    | DefFunc(name: string, params: seq<string>, body: Node,
              vars: map<string, int>, maxOffset: int)  // ND_DEF_FUNC

  /** The trees the expression parser of parse.c builds: numbers and binary
      operators only. */
  predicate Arith(n: Node)
  {
    match n
    case Num(_) => true
    case Binary(_, l, r) => Arith(l) && Arith(r)
    case _ => false
  }
}
