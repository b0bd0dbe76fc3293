/**
 * The part of an ECMAScript module's syntax tree that the import extractor
 * looks at. The tree stands for what the swc parser hands to the visitor:
 * import declarations and call expressions are distinguished, every other
 * node kind is an `Other` node that only carries its children, in the order
 * in which the visitor walks them (source order).
 */
module Ast {

  /** A literal; only string literals matter to the extractor. */
  datatype Lit = Str(value: string) | NonStr

  datatype Node =
    /** `import … from "src"` or the side-effect form `import "src"`. */
    | ImportDecl(src: string)
    | CallExpr(callee: Callee, args: seq<Arg>)
    | Ident(sym: string)
    | Literal(lit: Lit)
    /** Any other node (statement, declaration, member access, function, …). */
    | Other(children: seq<Node>)

  /** The callee of a call: `super` or an expression. */
  datatype Callee = SuperCallee | ExprCallee(expr: Node)

  /** A call argument; `spread` is set for `...expr`. */
  datatype Arg = Arg(spread: bool, expr: Node)

  /** A parsed module: its top-level items in source order. */
  datatype Module = Module(body: seq<Node>)
}
