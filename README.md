# flowgen core in Dafny

flowgen turns TypeScript declaration files into Flow declarations. This project models three parts of it:

- **The declaration printer** (`src/printers/declarations.js`). Each operation takes one declaration node and builds Flow text:
  - property members: private members dropped, `+` for readonly, `?` or `(T) | void` for optional, `any // <initializer>` when untyped;
  - variable statements: one `declare var` line per declarator;
  - object bodies;
  - interfaces, in nominal form (`&` heritage) or record form (`...$Exact<T>` spreads);
  - classes, whose supertypes go in a `mixins` clause;
  - enums, as an exact object with the position of a member as its default value;
  - type aliases and type references.
- **The option store** (`src/options.js`): four flags with frozen defaults. `assignOptions` overwrites them key by key, `resetOptions` puts the defaults back, and `opts()` returns the live object.
- **The environment registry** (`src/env.js`): a module-wide counter and slot table. Every function made by `withEnv` shares them.

Files:
- `wrappers.dfy`: `Option`.
- `text.dfy`: `Array.prototype.join`, `split` on one character, concatenation and decimal printing of numbers, with their round-trip lemmas.
- `syntax.dfy`: the tree node and the `Printers` record.
- `declarations.dfy`, `options.dfy` and `env.dfy`: the three components.

How the model is built:
- **Tree nodes.** A node is one `Node` datatype with the properties the printer reads: modifiers, name, `questionToken`, `type`, `parameters`, `initializer`, `members`, `heritageClauses`, type parameters and arguments, and so on. A property that may be `undefined` is an `Option`.
- **Helper printers.** The helpers the printer calls live in files that are not part of this model. They are the function-valued fields of `Printers`: `printType`, `generics`, `parameter`, `comment`, `exporter`, `namespaceProp`, `identifiers.print`, `getFullyQualifiedName`, `getFullyQualifiedPropertyAccessExpression`, `getSymbolAtLocation` and `fixDefaultTypeArguments`. Every property is stated relative to what they return.
- **Helpers passed to `map`.** Where a helper is handed directly to `Array.prototype.map`, it receives the element, its index and the list, as JavaScript passes them. That is the case for `printType` in `variableDeclaration` and for `common.parameter`.
- **Methods and functions.** Code that reassigns locals or loops is a method, proved against a specification function. That covers `propertyDeclaration`, `interfaceType`, `interfaceRecordType`, the interface and class declarations and the `for` loop of `enumDeclaration`. Pure map/join expressions are functions.
- **Module state.** The option store and the registry are classes whose methods update their fields.
- **Global reads.** `opts()` read inside `interfaceDeclaration` becomes an `OptionValues` parameter.

Some behaviours of the code worth knowing:
- A non-computed optional key gets `?` and keeps its type; only a computed optional key has its type widened to `(T) | void`.
- Nominal-mode supertypes are not wrapped in `$Exact`.
- Every class heritage, even a single supertype, becomes a `mixins` clause.
- The identifier table is consulted only when `typeReference` is called with `identifier` set.
- An enum member without an initializer gets its position in the member list, so members with explicit initializers also advance it. For example, after `A = 5`, `B` prints as `1`.

## Model

| member | source | states |
|---|---|---|
| Declarations.PropertyDeclaration | src/printers/declarations.js:9-57 | the printed member is exactly `PropertyText`: empty for a private member, otherwise key, `: ` and a signature, a type or `any // <initializer>` |
| Declarations.PrivateMemberDropped | src/printers/declarations.js:19-26 | a member with a `PrivateKeyword` modifier prints as `""` whatever its type, parameters or initializer |
| Declarations.ReadonlyMarkerPlacement | src/printers/declarations.js:14-36 | the output starts with prefix, `+`, name for a readonly member and with prefix, name otherwise |
| Declarations.ParametersMakeSignature | src/printers/declarations.js:38-40 | with parameters the output is key, `: ` and the printed parameters joined by commas; changing the type or the question token changes nothing |
| Declarations.OptionalTypedMember | src/printers/declarations.js:42-54 | optional plain key: `?` added, type unchanged; optional computed key: no `?`, type becomes `(T) \| void`; not optional: type unchanged |
| Declarations.UntypedMemberIsAny | src/printers/declarations.js:56 | with neither parameters nor type the output is key, `: any // ` and the printed initializer |
| Declarations.VariableDeclaration | src/printers/declarations.js:59-67 | no declarators give `""`; otherwise the output begins with the `declare <exporter>var <name>;` line of the first declarator |
| Declarations.VariableDeclarationLines | src/printers/declarations.js:59-67 | when no printed piece holds a line break, splitting the output at line breaks gives exactly one `declare` line per declarator, in order |
| Declarations.MemberRows | src/printers/declarations.js:73-90 | at most one row per member, each starting with a line break; no rows exactly when every member prints as `""` |
| Declarations.MemberRowsAppend | src/printers/declarations.js:73-90 | the rows of two runs of members are the rows of each, in member order |
| Declarations.MemberRowsSingle | src/printers/declarations.js:74-88 | one member gives no row when it prints `""`, and otherwise a line break, its doc comment if any, and its printed text |
| Declarations.JoinedRows | src/printers/declarations.js:89-94 | rows joined by `;` or `,`, with a closing line break exactly when some row was kept |
| Declarations.InterfaceType | src/printers/declarations.js:69-97 | the body is `{`, the kept rows joined by the separator, a closing line break if any row, `}` |
| Declarations.EmptyBody | src/printers/declarations.js:92-96 | the body is `{}` exactly when every member prints as `""` |
| Declarations.InterfaceRecordType | src/printers/declarations.js:99-128 | the same body with the heritage text placed right after `{` |
| Declarations.RecordHeritageSpreads | src/printers/declarations.js:138-147 | the record heritage of an interface is `...$Exact<T>,\n` for each supertype, in order |
| Declarations.InterfaceRecordDeclaration | src/printers/declarations.js:130-155 | the record form is `<modifier>type <name><generics> = ` with the body holding the spreads, then a line break |
| Declarations.RecordSpreadsBeforeMembers | src/printers/declarations.js:130-155 | in record form every supertype spread comes, in order, before the rows of the interface's own members |
| Declarations.InterfaceDeclaration | src/printers/declarations.js:157-201 | record form when `interfaceRecords` is true, nominal form otherwise |
| Declarations.NominalInterfaceShape | src/printers/declarations.js:166-198 | without heritage clauses: `interface` followed by the body; with heritage: a `type` alias whose body is followed, after the closing brace and a space, by `& ` and the supertypes joined by ` & ` (one clause), then a line break |
| Declarations.ClassDeclaration | src/printers/declarations.js:255-291 | `declare <exporter>class <name><generics> <mixins> ` followed by the body with `;` separators |
| Declarations.MixinsListAllSupertypes | src/printers/declarations.js:259-281 | the `mixins` clause lists every supertype of every clause in source order, separated by `, ` |
| Declarations.TwoSupertypesMixins | src/printers/declarations.js:259-281 | two supertypes, in one clause or in two, print as `mixins A, B` |
| Declarations.TypeDeclaration | src/printers/declarations.js:203-213 | `<modifier>type <name><generics> = `, then the printed type, unchanged, then `;`, with nothing else in between (the length is exactly the sum of the three) |
| Declarations.TypeReference | src/printers/declarations.js:235-253 | a qualified name prints whole with its generics; an identifier whose lookup yields a rewrite gives that rewrite applied to the type arguments; any other name goes through the namespace helper with its generics |
| Declarations.TypeReferenceIgnoresTable | src/printers/declarations.js:242-248 | without `identifier` the identifier table does not affect the output |
| Declarations.EnumDeclaration | src/printers/declarations.js:215-233 | the output is the exact-object declaration whose body is the entries of all members, in declaration order |
| Declarations.EnumEntriesPrefix | src/printers/declarations.js:217-228 | the entries of earlier members are a prefix of the entries of later ones |
| Declarations.EnumOrdinal | src/printers/declarations.js:218-228 | a member without an initializer prints right after the members before it, with value the decimal form of its position, which reads back as that position |
| Declarations.EnumOrdinalsDistinct | src/printers/declarations.js:221-225 | two members without initializers never print the same value |
| Declarations.InitializerKeepsLaterOrdinal | src/printers/declarations.js:218-228 | after a member with an explicit initializer, the next uninitialized member still prints `1` |
| Text.Decimal | src/printers/declarations.js:224-227 | a position prints as a non-empty string of decimal digits with no leading zero |
| Text.DecimalRoundTrip | src/printers/declarations.js:224-227 | reading back the printed digits of a position gives that position |
| Options.Assign | src/options.js:19-21 | every key present in the assigned shape takes its value; every other field keeps its value |
| Options.AsShapeFields | src/options.js:23-25 | the defaults as an assignment carry every key with its default value |
| Options.AssignAll | src/options.js:23-25 | assigning a whole options object gives exactly that object, whatever was there |
| Options.AssignIdempotent | src/options.js:19-21 | assigning the same shape twice is assigning it once |
| Options.AssignLastWriteWins | src/options.js:19-21 | two assignments in a row are one assignment of their merge, the later winning |
| Options.ResetThenAssign | src/options.js:19-25 | a reset and then an assignment gives the defaults overridden by the assignment, whatever came before |
| Options.OptionsState.constructor | src/options.js:10-17 | the initial options are the defaults: `jsdoc` true, `interfaceRecords` false, `moduleExports` true, `quiet` false |
| Options.OptionsState.AssignOptions | src/options.js:19-21 | the new state is the old one with the present keys overwritten; the absent keys are unchanged |
| Options.OptionsState.ResetOptions | src/options.js:23-25 | after a reset all four fields equal the defaults |
| Options.OptionsState.Opts | src/options.js:27-29 | returns the live options object itself |
| Options.OptionsLifecycle | src/options.js:10-29 | through one `opts()` result a caller sees the defaults, then the assigned keys, then the defaults again after one reset and after a second |
| Env.Push | src/env.js:13-14 | a registration moves the counter on by one, makes the new env the latest, keeps every earlier slot and keeps exactly the slots below the counter filled |
| Env.PushAllEffect | src/env.js:12-18 | after any run of registrations the counter grew by their number, old slots are unchanged, the new slots hold the envs in order and the latest is the last registered |
| Env.InitialHasNoLatest | src/env.js:3-11 | before any registration the unbound function receives `undefined` |
| Env.BoundVersusLatest | src/env.js:9-18 | for any table and any run of later registrations, a closure bound to `env` still passes `env`, while the unbound function passes `env` only until the next registration and the last registered env after that |
| Env.EnvRegistry.constructor | src/env.js:3-4 | the counter starts at 0 and the slot table empty |
| Env.EnvRegistry.Register | src/env.js:12-18 | stores the env at slot `i`, increments `i` by one and returns a closure bound to that env and the same callback |
| Env.EnvRegistry.Call | src/env.js:9-11 | the unbound call passes `envs[i - 1]`, which is `undefined` before any registration |
| Env.SharedRegistry | src/env.js:6-20 | a registration through one function is what another's unbound call sees, while a closure bound earlier keeps its own env |

## Left out

- `src/cli/compiler.js` is not part of this model. It sets up the TypeScript compiler host, reads files and calls the logger, all I/O and foreign-library calls. Its `reset` is `resetOptions` followed by `assignOptions`, covered by `ResetThenAssign`, plus `namespaceManager.reset`, which is not part of this model.
- `src/__tests__/union_strings.spec.js` is a snapshot test; its snapshot file is outside this model. It only reaches the printer through the compiler plumbing above.
- The helper printers and the type checker have no behaviour of their own here: they are parameters, so nothing is assumed about their output.
- `fixDefaultTypeArguments` is modelled as giving the supertype's new type arguments. The source changes the node in place, so later prints of the same node would see the fixed arguments. That mutation of the tree is not modelled.
- The printers' results are taken to be strings. A helper returning `null` or `undefined` and the JavaScript coercions that would follow are not modelled.
- In `enumDeclaration` the local `name` (line 220) is computed and never used, so it is not modelled.
- Modifier nodes are reduced to their kinds, the only thing the printer reads from them.
- `assignOptions` takes only the four option keys. `Object.assign` would also copy unknown keys onto the options object, but nothing reads them. Non-boolean values other than `undefined` are not modelled.
- `Object.freeze` of the defaults is represented by the defaults being an immutable value.
- The variadic arguments of the `withEnv` callback are one argument value of a type parameter.
- RecordHeritageSpreads: stated for an interface's single heritage clause (TypeScript interfaces only have `extends`). With several clauses the code joins the clauses' texts with nothing between them.
- MixinsListAllSupertypes: stated for heritage clauses that each name at least one supertype, as TypeScript clauses do.
- VariableDeclarationLines: the line count is stated for printed pieces without line breaks; the helpers' output is otherwise unknown.
