/**
 * The declaration tree the printers read, and the printer helpers they call
 * whose definitions are not part of this model.
 *
 * A node of the external TypeScript tree carries whichever of these
 * properties its kind has; an absent (`undefined`) property is `None` or,
 * for the lists the printers always find present, the empty list.
 */
module Syntax {
  import opened Wrappers

  /** The `ts.SyntaxKind` values the printers compare against; `OtherKind` stands for the rest. */
  datatype SyntaxKind =
    | Identifier
    | ComputedPropertyName
    | QualifiedName
    | PropertyAccessExpression
    | PrivateKeyword
    | ProtectedKeyword
    | PublicKeyword
    | ReadonlyKeyword
    | StaticKeyword
    | ExportKeyword
    | DeclareKeyword
    | OtherKind(code: nat)

  datatype Node = Node(
    kind: SyntaxKind,
    text: string,                              // `text` of an identifier
    modifiers: Option<seq<SyntaxKind>>,        // the kinds of the modifier nodes
    name: Option<Node>,
    questionToken: bool,
    typeNode: Option<Node>,                    // the `type` property
    parameters: Option<seq<Node>>,
    initializer: Option<Node>,
    members: seq<Node>,
    heritageClauses: Option<seq<HeritageClause>>,
    typeParameters: Option<seq<Node>>,
    typeArguments: Option<seq<Node>>,
    typeName: Option<Node>,
    left: Option<Node>,
    right: Option<Node>,
    expression: Option<Node>,
    declarations: seq<Node>,                   // `declarationList.declarations`
    jsDoc: Option<seq<Node>>)

  datatype HeritageClause = HeritageClause(types: seq<Node>)

  /** A symbol handle the type checker hands out; only the helpers defined elsewhere look inside. */
  datatype Symbol = Symbol(id: nat)

  /**
   * What `printers.identifiers.print` gives for a name: a replacement name,
   * or a function the type arguments are handed to.
   */
  datatype IdentifierMapping =
    | Renamed(name: string)
    | Rewrite(apply: Option<seq<Node>> -> string)

  /**
   * The helpers the declaration printer calls, as parameters. `printTypeMapped`
   * and `parameter` are the helpers as `Array.prototype.map` calls them: with
   * the element, its index and the whole list.
   */
  datatype Printers = Printers(
    printType: Node -> string,                                   // printers.node.printType(node)
    printUndefined: string,                                      // printers.node.printType(undefined)
    printTypeMapped: (Node, nat, seq<Node>) -> string,
    parameter: (Node, nat, seq<Node>) -> string,                 // printers.common.parameter
    generics: Option<seq<Node>> -> string,                       // printers.common.generics
    comment: seq<Node> -> string,                                // printers.common.comment
    exporter: Node -> string,                                    // printers.relationships.exporter
    namespaceProp: string -> string,                             // printers.relationships.namespaceProp
    identifierPrint: string -> IdentifierMapping,                // printers.identifiers.print
    symbolAt: Node -> Option<Symbol>,                            // checker.current.getSymbolAtLocation
    fullyQualifiedName: (Option<Symbol>, Node) -> string,        // printers.node.getFullyQualifiedName
    fullyQualifiedPropertyAccess: (Option<Symbol>, Node) -> string,
    fixDefaultTypeArguments: (Option<Symbol>, Node) -> Option<seq<Node>>)

  /** `printType` of a property that may be `undefined`. */
  function PrintOptional(p: Printers, n: Option<Node>): string
  {
    match n
    case Some(v) => p.printType(v)
    case None => p.printUndefined
  }

  /** `node.modifiers && node.modifiers.some(m => m.kind === k)`. */
  predicate HasModifier(node: Node, k: SyntaxKind)
  {
    node.modifiers.Some? && k in node.modifiers.value
  }
}
