/**
 * The declaration printer of `src/printers/declarations.js`: each operation
 * takes one declaration node and assembles the Flow text for it from the
 * node's parts and from what the helper printers (the `Printers` record)
 * give for its sub-nodes.
 */
module Declarations {
  import opened Wrappers
  import opened Text
  import opened Syntax
  import Options

  // ---------------------------------------------------------------------------
  // Property members

  /** The printed name: the fully qualified symbol name for a variable, the printed name node otherwise. */
  function MemberName(p: Printers, node: Node, isVar: bool): string
    requires node.name.Some?
  {
    if isVar then p.fullyQualifiedName(p.symbolAt(node.name.value), node.name.value)
    else p.printType(node.name.value)
  }

  predicate IsComputedKey(node: Node)
    requires node.name.Some?
  {
    node.name.value.kind == ComputedPropertyName
  }

  /** The keyword prefix, followed by `+` for a readonly member. */
  function Marked(node: Node, keywordPrefix: string): string
  {
    if HasModifier(node, ReadonlyKeyword) then keywordPrefix + "+" else keywordPrefix
  }

  /**
   * The key: the keyword prefix, `+` for a readonly member, the name, and `?`
   * for an optional typed member whose key is not computed.
   */
  function PropertyKey(p: Printers, node: Node, keywordPrefix: string, isVar: bool): string
    requires node.name.Some?
  {
    var named := Marked(node, keywordPrefix) + MemberName(p, node, isVar);
    if node.parameters.None? && node.typeNode.Some? && node.questionToken && !IsComputedKey(node) then named + "?" else named
  }

  /** The printed parameters, joined with commas as an array converted to a string is. */
  function ParameterList(p: Printers, params: seq<Node>): string
  {
    Join(seq(|params|, k requires 0 <= k < |params| => p.parameter(params[k], k, params)), ",")
  }

  /** The type after the key: widened to `(T) | void` for an optional computed key. */
  function TypeAnnotation(p: Printers, node: Node, t: Node): string
    requires node.name.Some?
  {
    if node.questionToken && IsComputedKey(node) then "(" + p.printType(t) + ") | void" else p.printType(t)
  }

  /**
   * The text of a property member: nothing for a private one; otherwise the
   * key followed by a signature, a type, or `any` with the printed initializer.
   */
  function PropertyText(p: Printers, node: Node, keywordPrefix: string, isVar: bool): string
    requires node.name.Some?
  {
    if HasModifier(node, PrivateKeyword) then ""
    else
      var key := PropertyKey(p, node, keywordPrefix, isVar);
      match node.parameters
      case Some(params) => key + ": " + ParameterList(p, params)
      case None =>
        match node.typeNode
        case Some(t) => key + ": " + TypeAnnotation(p, node, t)
        case None => key + (": any // " + PrintOptional(p, node.initializer))
  }

  /** `propertyDeclaration(node, keywordPrefix, isVar)`. */
  method PropertyDeclaration(p: Printers, node: Node, keywordPrefix: string, isVar: bool) returns (r: string)
    requires node.name.Some?
    ensures r == PropertyText(p, node, keywordPrefix, isVar)
  {
    var left := keywordPrefix;
    var symbol := p.symbolAt(node.name.value);
    var name := if isVar then p.fullyQualifiedName(symbol, node.name.value) else p.printType(node.name.value);
    if HasModifier(node, PrivateKeyword) {
      return "";
    }
    if HasModifier(node, ReadonlyKeyword) {
      left := left + "+";
    }
    left := left + name;
    if node.parameters.Some? {
      return left + ": " + ParameterList(p, node.parameters.value);
    }
    if node.typeNode.Some? {
      var right := p.printType(node.typeNode.value);
      if node.questionToken && node.name.value.kind != ComputedPropertyName {
        left := left + "?";
      }
      if node.questionToken && node.name.value.kind == ComputedPropertyName {
        right := "(" + right + ") | void";
      }
      return left + ": " + right;
    }
    return left + (": any // " + PrintOptional(p, node.initializer));
  }

  /** A private member prints as nothing, whatever its type, parameters or initializer. */
  lemma PrivateMemberDropped(p: Printers, node: Node, keywordPrefix: string, isVar: bool)
    requires node.name.Some? && HasModifier(node, PrivateKeyword)
    ensures PropertyText(p, node, keywordPrefix, isVar) == ""
  {
  }

  /** Between the keyword prefix and the name stands one `+` for a readonly member and nothing otherwise. */
  lemma ReadonlyMarkerPlacement(p: Printers, node: Node, keywordPrefix: string, isVar: bool)
    requires node.name.Some? && !HasModifier(node, PrivateKeyword)
    ensures HasModifier(node, ReadonlyKeyword) ==>
      keywordPrefix + "+" + MemberName(p, node, isVar) <= PropertyText(p, node, keywordPrefix, isVar)
    ensures !HasModifier(node, ReadonlyKeyword) ==>
      keywordPrefix + MemberName(p, node, isVar) <= PropertyText(p, node, keywordPrefix, isVar)
  {
    var named := Marked(node, keywordPrefix) + MemberName(p, node, isVar);
    var key := PropertyKey(p, node, keywordPrefix, isVar);
    assert named <= key;
    assert key <= PropertyText(p, node, keywordPrefix, isVar);
  }

  /**
   * A member with parameters prints as a signature of its printed parameters,
   * and neither its type nor its question token changes the text.
   */
  lemma ParametersMakeSignature(p: Printers, node: Node, keywordPrefix: string, isVar: bool, t: Option<Node>, q: bool)
    requires node.name.Some? && !HasModifier(node, PrivateKeyword) && node.parameters.Some?
    ensures PropertyText(p, node, keywordPrefix, isVar)
         == Marked(node, keywordPrefix) + MemberName(p, node, isVar) + ": " + ParameterList(p, node.parameters.value)
    ensures PropertyText(p, node.(typeNode := t, questionToken := q), keywordPrefix, isVar)
         == PropertyText(p, node, keywordPrefix, isVar)
  {
  }

  /**
   * An optional typed member: a plain key gets `?` and keeps its type; a
   * computed key gets no `?` and its type is widened to `(T) | void`. A member
   * that is not optional prints its type unchanged after its key.
   */
  lemma OptionalTypedMember(p: Printers, node: Node, keywordPrefix: string, isVar: bool)
    requires node.name.Some? && !HasModifier(node, PrivateKeyword)
    requires node.parameters.None? && node.typeNode.Some?
    ensures var key := Marked(node, keywordPrefix) + MemberName(p, node, isVar);
            var t := p.printType(node.typeNode.value);
            && (node.questionToken && !IsComputedKey(node) ==> PropertyText(p, node, keywordPrefix, isVar) == key + "?" + ": " + t)
            && (node.questionToken && IsComputedKey(node) ==> PropertyText(p, node, keywordPrefix, isVar) == key + ": " + ("(" + t + ") | void"))
            && (!node.questionToken ==> PropertyText(p, node, keywordPrefix, isVar) == key + ": " + t)
  {
  }

  /** With neither parameters nor type the member is `any`, followed by a comment with the printed initializer. */
  lemma UntypedMemberIsAny(p: Printers, node: Node, keywordPrefix: string, isVar: bool)
    requires node.name.Some? && !HasModifier(node, PrivateKeyword)
    requires node.parameters.None? && node.typeNode.None?
    ensures PropertyText(p, node, keywordPrefix, isVar)
         == Marked(node, keywordPrefix) + MemberName(p, node, isVar) + (": any // " + PrintOptional(p, node.initializer))
  {
  }

  // ---------------------------------------------------------------------------
  // Variable statements

  /** The line `declare <exporter>var <declarator>;` for declarator `k`. */
  function VariableLine(p: Printers, node: Node, k: nat): string
    requires k < |node.declarations|
  {
    "declare " + p.exporter(node) + "var " + p.printTypeMapped(node.declarations[k], k, node.declarations) + ";"
  }

  /** `variableDeclaration(node)`: one line per declarator, joined by newlines. */
  function VariableDeclaration(p: Printers, node: Node): (r: string)
    ensures |node.declarations| == 0 ==> r == ""
    ensures |node.declarations| > 0 ==> VariableLine(p, node, 0) <= r
  {
    var ds := node.declarations;
    Join(seq(|ds|, k requires 0 <= k < |ds| => VariableLine(p, node, k)), "\n")
  }

  /**
   * When neither the exporter text nor any printed declarator contains a line
   * break, the output has exactly one line per declarator, in declarator order.
   */
  lemma VariableDeclarationLines(p: Printers, node: Node)
    requires |node.declarations| > 0
    requires '\n' !in p.exporter(node)
    requires forall k :: 0 <= k < |node.declarations| ==> '\n' !in p.printTypeMapped(node.declarations[k], k, node.declarations)
    ensures |Split(VariableDeclaration(p, node), '\n')| == |node.declarations|
    ensures forall k :: 0 <= k < |node.declarations| ==> Split(VariableDeclaration(p, node), '\n')[k] == VariableLine(p, node, k)
  {
    var ds := node.declarations;
    var lines := seq(|ds|, k requires 0 <= k < |ds| => VariableLine(p, node, k));
    forall k | 0 <= k < |lines|
      ensures '\n' !in lines[k]
    {
      assert lines[k] == "declare " + p.exporter(node) + "var " + p.printTypeMapped(ds[k], k, ds) + ";";
    }
    SplitJoin(lines, '\n');
  }

  // ---------------------------------------------------------------------------
  // Object bodies

  /** One kept row: a line break, the member's doc comment when it has one, and its printed text. */
  function MemberRow(p: Printers, member: Node): string
  {
    "\n" + (if member.jsDoc.Some? then p.comment(member.jsDoc.value) else "") + p.printType(member)
  }

  /** The rows of the members whose printed text is not empty, in member order. */
  function MemberRows(p: Printers, members: seq<Node>): (rows: seq<string>)
    ensures |rows| <= |members|
    ensures forall k :: 0 <= k < |rows| ==> |rows[k]| > 0 && rows[k][0] == '\n'
    ensures |rows| == 0 <==> forall k :: 0 <= k < |members| ==> p.printType(members[k]) == ""
  {
    if |members| == 0 then []
    else
      var rest := MemberRows(p, members[1..]);
      assert forall k :: 1 <= k < |members| ==> members[k] == members[1..][k - 1];
      if p.printType(members[0]) == "" then rest else [MemberRow(p, members[0])] + rest
  }

  /** Each member contributes its own rows: the rows of two runs of members are the rows of each, in order. */
  lemma {:induction false} MemberRowsAppend(p: Printers, a: seq<Node>, b: seq<Node>)
    ensures MemberRows(p, a + b) == MemberRows(p, a) + MemberRows(p, b)
  {
    if |a| > 0 {
      assert (a + b)[1..] == a[1..] + b;
      MemberRowsAppend(p, a[1..], b);
    } else {
      assert a + b == b;
    }
  }

  /** A single member gives its row when it prints something and nothing when it prints nothing. */
  lemma MemberRowsSingle(p: Printers, m: Node)
    ensures MemberRows(p, [m]) == if p.printType(m) == "" then [] else [MemberRow(p, m)]
  {
  }

  function Separator(withSemicolons: bool): string
  {
    if withSemicolons then ";" else ","
  }

  /** `{`, the heritage text, the rows joined by the separator, a closing line break when there are rows, `}`. */
  function ObjectBody(p: Printers, members: seq<Node>, heritage: string, withSemicolons: bool): string
  {
    var rows := MemberRows(p, members);
    "{" + heritage + Join(rows, Separator(withSemicolons)) + (if |rows| == 0 then "" else "\n") + "}"
  }

  /** A body without heritage is `{}` exactly when every member prints as nothing. */
  lemma EmptyBody(p: Printers, members: seq<Node>, withSemicolons: bool)
    ensures ObjectBody(p, members, "", withSemicolons) == "{}"
        <==> forall k :: 0 <= k < |members| ==> p.printType(members[k]) == ""
  {
    var rows := MemberRows(p, members);
    if |rows| > 0 {
      assert |ObjectBody(p, members, "", withSemicolons)| > 2;
    }
  }

  /** The rows joined by the separator, with the closing line break when something is kept. */
  method JoinedRows(p: Printers, members: seq<Node>, withSemicolons: bool) returns (text: string)
    ensures text == Join(MemberRows(p, members), Separator(withSemicolons))
                    + (if |MemberRows(p, members)| == 0 then "" else "\n")
  {
    var rows := MemberRows(p, members);
    text := Join(rows, if withSemicolons then ";" else ",");
    JoinEmptyIff(rows, Separator(withSemicolons));
    if |text| > 0 {
      text := text + "\n";
    }
  }

  /** `interfaceType(node, withSemicolons)`. */
  method InterfaceType(p: Printers, node: Node, withSemicolons: bool) returns (r: string)
    ensures r == ObjectBody(p, node.members, "", withSemicolons)
  {
    var members := JoinedRows(p, node.members, withSemicolons);
    r := "{" + members + "}";
  }

  /** `interfaceRecordType(node, heritage, withSemicolons)`: the body with the heritage spreads first. */
  method InterfaceRecordType(p: Printers, node: Node, heritage: string, withSemicolons: bool) returns (r: string)
    ensures r == ObjectBody(p, node.members, heritage, withSemicolons)
  {
    var members := JoinedRows(p, node.members, withSemicolons);
    r := "{" + heritage + members + "}";
  }

  // ---------------------------------------------------------------------------
  // Heritage

  /** Every supertype in the heritage clauses has an expression, as the TypeScript parser guarantees: every `ExpressionWithTypeArguments` has an `expression`. */
  predicate HeritageResolvable(node: Node)
  {
    node.heritageClauses.Some? ==>
      forall i, j :: 0 <= i < |node.heritageClauses.value| && 0 <= j < |node.heritageClauses.value[i].types| ==>
        node.heritageClauses.value[i].types[j].expression.Some?
  }

  /**
   * One supertype in nominal form: its default type arguments are filled in
   * first; an identifier then prints as its fully qualified name with the
   * generic arguments, anything else through `printType`.
   */
  function SupertypeText(p: Printers, t: Node): string
    requires t.expression.Some?
  {
    var e := t.expression.value;
    var symbol := p.symbolAt(e);
    var fixed := t.(typeArguments := p.fixDefaultTypeArguments(symbol, t));
    if e.kind == Identifier then p.fullyQualifiedPropertyAccess(symbol, e) + p.generics(fixed.typeArguments)
    else p.printType(fixed)
  }

  /** The nominal supertype texts, clause by clause. */
  function SupertypeTexts(p: Printers, clauses: seq<HeritageClause>): (r: seq<seq<string>>)
    requires forall i, j :: 0 <= i < |clauses| && 0 <= j < |clauses[i].types| ==> clauses[i].types[j].expression.Some?
    ensures |r| == |clauses|
    ensures forall i :: 0 <= i < |clauses| ==> |r[i]| == |clauses[i].types|
  {
    seq(|clauses|, i requires 0 <= i < |clauses| =>
      seq(|clauses[i].types|, j requires 0 <= j < |clauses[i].types| => SupertypeText(p, clauses[i].types[j])))
  }

  /** The interface heritage: `& ` and the supertypes joined by ` & `, ending the line. */
  function IntersectionHeritage(p: Printers, node: Node): string
    requires HeritageResolvable(node)
  {
    match node.heritageClauses
    case None => ""
    case Some(clauses) =>
      var h := Join(JoinEach(SupertypeTexts(p, clauses), " & "), "");
      if |h| > 0 then "& " + h + "\n" else ""
  }

  /** The class heritage: every supertype of every clause, joined by `, `, after `mixins `. */
  function MixinsHeritage(p: Printers, node: Node): string
    requires HeritageResolvable(node)
  {
    match node.heritageClauses
    case None => ""
    case Some(clauses) =>
      var h := Join(JoinEach(SupertypeTexts(p, clauses), ", "), ", ");
      if |h| > 0 then "mixins " + h else ""
  }

  /** `...$Exact<T>` for each supertype, clause by clause. */
  function SpreadTexts(p: Printers, clauses: seq<HeritageClause>): (r: seq<seq<string>>)
    ensures |r| == |clauses|
    ensures forall i :: 0 <= i < |clauses| ==> |r[i]| == |clauses[i].types|
    ensures forall i, j :: 0 <= i < |clauses| && 0 <= j < |clauses[i].types| ==>
      r[i][j] == "...$Exact<" + p.printType(clauses[i].types[j]) + ">"
  {
    seq(|clauses|, i requires 0 <= i < |clauses| =>
      seq(|clauses[i].types|, j requires 0 <= j < |clauses[i].types| => "...$Exact<" + p.printType(clauses[i].types[j]) + ">"))
  }

  /** The record heritage: the spreads joined by `,\n`, then a final `,\n`. */
  function RecordHeritage(p: Printers, node: Node): string
  {
    match node.heritageClauses
    case None => ""
    case Some(clauses) =>
      var h := Join(JoinEach(SpreadTexts(p, clauses), ",\n"), "");
      if |h| > 0 then h + ",\n" else ""
  }

  /**
   * The `mixins` clause of a class lists every supertype of every clause in
   * source order, separated by `, `, when each clause names at least one.
   */
  lemma MixinsListAllSupertypes(p: Printers, node: Node)
    requires HeritageResolvable(node) && node.heritageClauses.Some?
    requires forall i :: 0 <= i < |node.heritageClauses.value| ==> |node.heritageClauses.value[i].types| > 0
    ensures var all := Join(Flatten(SupertypeTexts(p, node.heritageClauses.value)), ", ");
            MixinsHeritage(p, node) == if all == "" then "" else "mixins " + all
  {
    JoinFlatten(SupertypeTexts(p, node.heritageClauses.value), ", ");
  }

  /** Two supertypes, in one clause or in two: `mixins A, B`. */
  lemma TwoSupertypesMixins(p: Printers, node: Node, a: Node, b: Node)
    requires a.expression.Some? && b.expression.Some?
    requires node.heritageClauses == Some([HeritageClause([a, b])])
          || node.heritageClauses == Some([HeritageClause([a]), HeritageClause([b])])
    ensures MixinsHeritage(p, node) == "mixins " + SupertypeText(p, a) + ", " + SupertypeText(p, b)
  {
    var clauses := node.heritageClauses.value;
    var texts := SupertypeTexts(p, clauses);
    if |clauses| == 1 {
      assert |texts| == 1 && |texts[0]| == 2;
      assert texts[0][0] == SupertypeText(p, a) && texts[0][1] == SupertypeText(p, b);
      assert JoinEach(texts, ", ") == [SupertypeText(p, a) + ", " + SupertypeText(p, b)];
    } else {
      assert |texts| == 2 && |texts[0]| == 1 && |texts[1]| == 1;
      assert texts[0][0] == SupertypeText(p, a) && texts[1][0] == SupertypeText(p, b);
      assert JoinEach(texts, ", ") == [SupertypeText(p, a), SupertypeText(p, b)];
    }
  }

  /**
   * The record heritage of an interface (whose one clause is its `extends`
   * list) is a spread of each supertype in order, each ending in `,\n`.
   */
  lemma RecordHeritageSpreads(p: Printers, node: Node, types: seq<Node>)
    requires node.heritageClauses == Some([HeritageClause(types)]) && |types| > 0
    ensures RecordHeritage(p, node) == Concat(Terminated(SpreadTexts(p, [HeritageClause(types)])[0], ",\n"))
    ensures forall j :: 0 <= j < |types| ==>
      Terminated(SpreadTexts(p, [HeritageClause(types)])[0], ",\n")[j] == "...$Exact<" + p.printType(types[j]) + ">,\n"
  {
    var spreads := SpreadTexts(p, [HeritageClause(types)])[0];
    assert JoinEach(SpreadTexts(p, [HeritageClause(types)]), ",\n") == [Join(spreads, ",\n")];
    JoinEmptyIff(spreads, ",\n");
    JoinTerminated(spreads, ",\n");
  }

  // ---------------------------------------------------------------------------
  // Interfaces, classes, type aliases

  /** The record form: a type alias whose body starts with the heritage spreads. */
  function RecordAliasText(p: Printers, nodeName: string, node: Node, modifier: string): string
  {
    modifier + "type " + nodeName + p.generics(node.typeParameters) + " = "
      + ObjectBody(p, node.members, RecordHeritage(p, node), false) + "\n"
  }

  /** `interfaceRecordDeclaration(nodeName, node, modifier)`. */
  method InterfaceRecordDeclaration(p: Printers, nodeName: string, node: Node, modifier: string) returns (r: string)
    ensures r == RecordAliasText(p, nodeName, node, modifier)
  {
    var heritage := RecordHeritage(p, node);
    var body := InterfaceRecordType(p, node, heritage, false);
    r := modifier + "type " + nodeName + p.generics(node.typeParameters) + " = " + body + "\n";
  }

  /**
   * In record form an interface extending `types` is a type alias whose body
   * spreads every supertype, in order, before the rows of its own members.
   */
  lemma RecordSpreadsBeforeMembers(p: Printers, nodeName: string, node: Node, modifier: string, types: seq<Node>)
    requires node.heritageClauses == Some([HeritageClause(types)]) && |types| > 0
    ensures RecordAliasText(p, nodeName, node, modifier)
         == modifier + "type " + nodeName + p.generics(node.typeParameters) + " = {"
          + Concat(Terminated(SpreadTexts(p, [HeritageClause(types)])[0], ",\n"))
          + Join(MemberRows(p, node.members), ",") + (if |MemberRows(p, node.members)| == 0 then "" else "\n") + "}\n"
  {
    RecordHeritageSpreads(p, node, types);
  }

  /**
   * The nominal form: an `interface` when there are no heritage clauses, and
   * otherwise a type alias of the body intersected with the supertypes.
   */
  function NominalInterfaceText(p: Printers, nodeName: string, node: Node, modifier: string): string
    requires HeritageResolvable(node)
  {
    var kind := if node.heritageClauses.Some? then "type" else "interface";
    modifier + kind + " " + nodeName + p.generics(node.typeParameters) + " "
      + (if node.heritageClauses.Some? then "= " else "") + ObjectBody(p, node.members, "", false) + " "
      + IntersectionHeritage(p, node)
  }

  /**
   * `interfaceDeclaration(nodeName, node, modifier)`, with `options` the live
   * options at the time of the call: the record form when `interfaceRecords`
   * is set, the nominal form otherwise.
   */
  method InterfaceDeclaration(p: Printers, options: Options.OptionValues, nodeName: string, node: Node, modifier: string)
    returns (r: string)
    requires HeritageResolvable(node)
    ensures Options.Truthy(options.interfaceRecords) ==> r == RecordAliasText(p, nodeName, node, modifier)
    ensures !Options.Truthy(options.interfaceRecords) ==> r == NominalInterfaceText(p, nodeName, node, modifier)
  {
    var isRecord := options.interfaceRecords;
    if isRecord == Some(true) {
      r := InterfaceRecordDeclaration(p, nodeName, node, modifier);
      return;
    }
    var heritage := IntersectionHeritage(p, node);
    var kind := if node.heritageClauses.Some? then "type" else "interface";
    var body := InterfaceType(p, node, false);
    r := modifier + kind + " " + nodeName + p.generics(node.typeParameters) + " "
       + (if kind == "type" then "= " else "") + body + " " + heritage;
  }

  /**
   * Without heritage clauses the nominal form is a plain `interface` with
   * nothing after its body; with them it is a type alias whose body is
   * followed, after its closing brace and a space, by `& ` and the supertypes
   * joined by ` & `, then a line break.
   */
  lemma NominalInterfaceShape(p: Printers, nodeName: string, node: Node, modifier: string, types: seq<Node>)
    requires HeritageResolvable(node)
    ensures node.heritageClauses.None? ==>
      NominalInterfaceText(p, nodeName, node, modifier)
        == modifier + "interface" + " " + nodeName + p.generics(node.typeParameters) + " " + ObjectBody(p, node.members, "", false) + " "
    ensures node.heritageClauses == Some([HeritageClause(types)]) ==>
      var h := Join(SupertypeTexts(p, [HeritageClause(types)])[0], " & ");
      IntersectionHeritage(p, node) == if h == "" then "" else "& " + h + "\n"
    ensures node.heritageClauses.Some? ==>
      NominalInterfaceText(p, nodeName, node, modifier)
        == modifier + "type" + " " + nodeName + p.generics(node.typeParameters) + " " + "= "
           + ObjectBody(p, node.members, "", false) + " " + IntersectionHeritage(p, node)
    ensures var body := ObjectBody(p, node.members, "", false); |body| >= 2 && body[|body| - 1] == '}'
  {
  }

  /** `classDeclaration(nodeName, node)`: members separated by semicolons, supertypes in a `mixins` clause. */
  method ClassDeclaration(p: Printers, nodeName: string, node: Node) returns (r: string)
    requires HeritageResolvable(node)
    ensures r == "declare " + p.exporter(node) + "class " + nodeName + p.generics(node.typeParameters) + " "
               + MixinsHeritage(p, node) + " " + ObjectBody(p, node.members, "", true)
  {
    var heritage := MixinsHeritage(p, node);
    var body := InterfaceType(p, node, true);
    r := "declare " + p.exporter(node) + "class " + nodeName + p.generics(node.typeParameters) + " " + heritage + " " + body;
  }

  /** `typeDeclaration(nodeName, node, modifier)`: the printed type, unchanged, as the alias's right-hand side. */
  function TypeDeclaration(p: Printers, nodeName: string, node: Node, modifier: string): (r: string)
    ensures modifier + "type " + nodeName + p.generics(node.typeParameters) + " = " <= r
    ensures |r| > |PrintOptional(p, node.typeNode)| && r[|r| - |PrintOptional(p, node.typeNode)| - 1..] == PrintOptional(p, node.typeNode) + ";"
    ensures |r| == |modifier + "type " + nodeName + p.generics(node.typeParameters) + " = "| + |PrintOptional(p, node.typeNode)| + 1
  {
    var head := modifier + "type " + nodeName + p.generics(node.typeParameters) + " = ";
    var body := PrintOptional(p, node.typeNode) + ";";
    assert (head + body)[|head|..] == body;
    head + body
  }

  // ---------------------------------------------------------------------------
  // Type references

  /** A qualified name (`A.B`) has both a left and a right part. */
  predicate IsQualified(node: Node)
    requires node.typeName.Some?
  {
    node.typeName.value.left.Some? && node.typeName.value.right.Some?
  }

  /**
   * `typeReference(node, identifier)`: a qualified name prints whole with its
   * generic arguments; otherwise an identifier is looked up first, and a
   * rewrite found there is applied to the type arguments; any other name
   * goes through the namespace helper, followed by its generic arguments.
   */
  function TypeReference(p: Printers, node: Node, identifier: bool): (r: string)
    requires node.typeName.Some?
    ensures IsQualified(node) ==> r == p.printType(node.typeName.value) + p.generics(node.typeArguments)
    ensures !IsQualified(node) && identifier && p.identifierPrint(node.typeName.value.text).Rewrite? ==>
      r == p.identifierPrint(node.typeName.value.text).apply(node.typeArguments)
    ensures !IsQualified(node) && identifier && p.identifierPrint(node.typeName.value.text).Renamed? ==>
      r == p.namespaceProp(p.identifierPrint(node.typeName.value.text).name) + p.generics(node.typeArguments)
    ensures !IsQualified(node) && !identifier ==>
      r == p.namespaceProp(node.typeName.value.text) + p.generics(node.typeArguments)
  {
    var typeName := node.typeName.value;
    if IsQualified(node) then p.printType(typeName) + p.generics(node.typeArguments)
    else
      var mapped := if identifier then p.identifierPrint(typeName.text) else Renamed(typeName.text);
      match mapped
      case Rewrite(apply) => apply(node.typeArguments)
      case Renamed(name) => p.namespaceProp(name) + p.generics(node.typeArguments)
  }

  /** Without `identifier` the identifier table is never consulted. */
  lemma TypeReferenceIgnoresTable(p: Printers, node: Node, table: string -> IdentifierMapping)
    requires node.typeName.Some?
    ensures TypeReference(p.(identifierPrint := table), node, false) == TypeReference(p, node, false)
  {
  }

  // ---------------------------------------------------------------------------
  // Enums

  /** A member's value: its printed initializer, or else its zero-based position. */
  function EnumValue(p: Printers, member: Node, index: nat): string
  {
    if member.initializer.Some? then p.printType(member.initializer.value) else Decimal(index)
  }

  /** `+Name: value,` and then `// value` with a line break. */
  function EnumEntry(p: Printers, member: Node, index: nat): string
    requires member.name.Some?
  {
    var value := EnumValue(p, member, index);
    ("+" + member.name.value.text + ": " + value + ",") + ("// " + value + "\n")
  }

  predicate NamedMembers(members: seq<Node>)
  {
    forall k :: 0 <= k < |members| ==> members[k].name.Some?
  }

  /** The entries of the first `n` members, in order. */
  function EnumEntries(p: Printers, members: seq<Node>, n: nat): string
    requires n <= |members| && NamedMembers(members)
  {
    if n == 0 then "" else EnumEntries(p, members, n - 1) + EnumEntry(p, members[n - 1], n - 1)
  }

  function EnumText(p: Printers, nodeName: string, node: Node): string
    requires NamedMembers(node.members)
  {
    "\ndeclare " + p.exporter(node) + " var " + nodeName + ": {|\n  "
      + EnumEntries(p, node.members, |node.members|) + "\n|};\n"
  }

  /** `enumDeclaration(nodeName, node)`: an exact object type with one read-only entry per member. */
  method EnumDeclaration(p: Printers, nodeName: string, node: Node) returns (r: string)
    requires NamedMembers(node.members)
    ensures r == EnumText(p, nodeName, node)
  {
    var exporter := p.exporter(node);
    var members := "";
    for index := 0 to |node.members|
      invariant members == EnumEntries(p, node.members, index)
    {
      var member := node.members[index];
      var value;
      if member.initializer.Some? {
        value := p.printType(member.initializer.value);
      } else {
        value := Decimal(index);
      }
      var field := "+" + member.name.value.text + ": " + value + ",";
      var comment := "// " + value + "\n";
      assert EnumEntries(p, node.members, index + 1) == members + (field + comment);
      members := members + field;
      members := members + comment;
    }
    r := "\ndeclare " + exporter + " var " + nodeName + ": {|\n  " + members + "\n|};\n";
  }

  /** The entries of fewer members are a prefix of the entries of more: members keep declaration order. */
  lemma {:induction false} EnumEntriesPrefix(p: Printers, members: seq<Node>, m: nat, n: nat)
    requires m <= n <= |members| && NamedMembers(members)
    ensures EnumEntries(p, members, m) <= EnumEntries(p, members, n)
    decreases n
  {
    if m < n {
      EnumEntriesPrefix(p, members, m, n - 1);
    }
  }

  /**
   * Member `k` prints right after the members before it, and without an
   * initializer its value is the decimal form of `k`, whatever the other
   * members' initializers are; reading that value back gives `k`.
   */
  lemma EnumOrdinal(p: Printers, members: seq<Node>, k: nat)
    requires k < |members| && NamedMembers(members)
    requires members[k].initializer.None?
    ensures EnumEntries(p, members, k) + EnumEntry(p, members[k], k) <= EnumEntries(p, members, |members|)
    ensures EnumValue(p, members[k], k) == Decimal(k)
    ensures IsDigits(EnumValue(p, members[k], k)) && ParseDecimal(EnumValue(p, members[k], k)) == k
  {
    EnumEntriesPrefix(p, members, k + 1, |members|);
    DecimalRoundTrip(k);
  }

  /** Two members without initializers never print the same value. */
  lemma EnumOrdinalsDistinct(p: Printers, members: seq<Node>, j: nat, k: nat)
    requires j < k < |members|
    requires members[j].initializer.None? && members[k].initializer.None?
    ensures EnumValue(p, members[j], j) != EnumValue(p, members[k], k)
  {
    DecimalInjective(j, k);
  }

  /** An explicit initializer on the first member does not shift the second member's ordinal: it is still 1. */
  lemma InitializerKeepsLaterOrdinal(p: Printers, a: Node, b: Node)
    requires a.name.Some? && b.name.Some?
    requires a.initializer.Some? && b.initializer.None?
    ensures EnumEntries(p, [a, b], 2) == EnumEntry(p, a, 0) + EnumEntry(p, b, 1)
    ensures EnumValue(p, a, 0) == p.printType(a.initializer.value)
    ensures EnumValue(p, b, 1) == "1"
  {
    assert EnumEntries(p, [a, b], 1) == "" + EnumEntry(p, a, 0);
    assert "" + EnumEntry(p, a, 0) == EnumEntry(p, a, 0);
    assert Decimal(1) == [Digit(1)];
  }
}
