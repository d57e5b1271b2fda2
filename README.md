# Block scoping in buble, modelled in Dafny

buble compiles modern JavaScript to ES5. One of its stages lowers block
scoping: every `let` and `const` becomes a `var`, and destructuring
declarations become plain `var` declarators. A `var` is scoped to the whole
function, so a block-scoped binding moved up into its function (its *hoist
target*) may collide with a name already in use there. The stage renames
such a binding to the first free `name$1`, `name$2`, … and rewrites every
reference that resolves to it. It also refuses two kinds of program:

- a redeclaration with "Identifier 'x' has already been declared": two
  declarations of one name in one scope, one of them `let`, `const`,
  `class` or an import; or a `var` that passes through a block binding the
  name lexically on its way to its function (a function expression's own
  name clashes with nothing);
- any write to a `const` binding, with "x is read-only".

The behaviour is fixed by the record table `test/samples/block-scoping.js`.
Each record gives an input and either the expected output or the expected
error. The model works on an abstract program instead of source text:

- a scope arena (Global, Function and Block scopes, each pointing to an
  earlier parent); a function expression's own name is bound in that
  function's own scope;
- the declarations in source order, each with its name, its kind and the
  scope it is written in;
- the identifier occurrences, each a reference, a member property or a
  shorthand property.

Modules:

- `Scopes`: the arena, the scope chain, the hoist target and name resolution.
- `Syntax`: declarations, occurrences and programs.
- `Bindings`: filling the per-scope binding tables, and the duplicate check.
- `Names`: the `name$k` counter.
- `Renamer`: the renaming decisions, as a fold over the hoisted bindings in
  source order.
- `Patterns`: flattening of object, array and rest patterns into declarators.
- `Transform`: the const-write check, the rewrite, and the whole stage `Run`.
- `Analysis`: the stage as an object that fills its tables and renaming state
  step by step. Each of its methods is proved against the functions above.
- `Steps`: small facts about one step of table building, renaming and
  rewriting, which the record lemmas are assembled from.
- `Fixtures`, `Shadowing` and `Destructuring`: records of the table, each
  stated as a lemma about `Run`. The destructuring records also state the
  declarators, or the kept pattern, under the renames `Run` decides for
  the block.

How a name occupies a hoist target f, as the records fix it:

- A name occupies f when it is bound in f. This holds for every kind of
  binding: parameter, `var`, function or class declaration, import, and the
  own name of a function expression whose body is f.
- A name also occupies f when f contains a reference to it that resolves
  outside f, or to nothing at all.
- A name occupies f once an earlier hoisted binding has been given it.

An outer binding that f never refers to does not occupy f (lines 356-378).

## Model

| member | source | states |
|---|---|---|
| Names.FirstFreeCharacterized | test/samples/block-scoping.js:8-68 | the chosen name is exactly the first free one: the name itself when unoccupied, otherwise the least `name$k` not occupied, with every earlier `name$j` occupied (both directions) |
| Names.FreshName | test/samples/block-scoping.js:8-68 | the counter loop returns that first free name, and it is unoccupied |
| Names.NatToStringInjective | test/samples/block-scoping.js:8-68 | distinct counters print distinct suffixes, so `x$1`, `x$2`, … never coincide |
| Names.AliasInjective | test/samples/block-scoping.js:8-68 | `name$j` and `name$k` are equal only when j = k, and no alias equals the base name |
| Names.NextSiblingName | test/samples/block-scoping.js:8-68 | when the first k sibling names are taken and the next is not otherwise occupied, the next binding takes exactly that name |
| Names.FirstAlias | test/samples/block-scoping.js:8-34 | an occupied name whose `name$1` is free is renamed to exactly `name$1` |
| Scopes.Chain | test/samples/block-scoping.js:328-354 | the scope chain starts at the scope, ends at the global scope, strictly descends, and each element's parent is the next element |
| Scopes.FunctionScopeNearest | test/samples/block-scoping.js:36-68 | the hoist target is the nearest non-block scope on the chain; every scope between the block and the target is a block |
| Scopes.ResolveNearest | test/samples/block-scoping.js:328-354 | a reference resolves to the innermost scope on its chain that binds the name; a free name is bound nowhere on the chain |
| Scopes.SpanIsChainPrefix | test/samples/block-scoping.js:36-68 | the scopes a `var` passes through are exactly those on its chain from its own scope out to its hoist target |
| Syntax.DeclScope | test/samples/block-scoping.js:204-222 | `var` and function declarations are entered in the nearest non-block scope on their chain, with only blocks between; every other kind stays in the scope it is written in |
| Bindings.Message | test/samples/block-scoping.js:70-86 | the duplicate message is "Identifier '" followed by the name; the read-only message is the name followed by " is read-only" |
| Bindings.LexicalOnSpanMeans | test/samples/block-scoping.js:70-77 | the walk up a `var`'s span finds a lexical binding of the name exactly when some scope of the span holds one |
| Bindings.Claim | test/samples/block-scoping.js:36-68 | a `var` claims its name in exactly the scopes of its span and nowhere else |
| Bindings.SameTableRefused | test/samples/block-scoping.js:70-77 | the same-table test fires exactly when the declaration shares a table with an earlier one of its name, one of them lexical, neither a function expression's own name |
| Bindings.ClaimedRefused | test/samples/block-scoping.js:70-77 | a lexical declaration finds its name claimed exactly when an earlier `var` passed through its scope |
| Bindings.SpanRefused | test/samples/block-scoping.js:70-77 | a `var` finds a lexical binding on its span exactly when it passes through the scope of an earlier lexical declaration of its name |
| Bindings.RegisterRefusesClash | test/samples/block-scoping.js:70-77 | against tables that match the earlier declarations, a new declaration is refused iff it clashes with one of them |
| Bindings.RegisterKeepsMatch | test/samples/block-scoping.js:70-77 | a declaration that clashes with nothing is accepted, and the tables still bind exactly the declared names |
| Bindings.BuildCorrect | test/samples/block-scoping.js:70-77 | table building succeeds iff no two declarations clash; on success the tables bind exactly the declared names, lexical iff a lexical declaration made them; on failure the error names the later declaration of a clashing pair, and that declaration is the first in source order to clash with an earlier one |
| Bindings.FirstRedeclaration | test/samples/block-scoping.js:70-77 | a refused walk reports the first declaration, in source order, that clashes with an earlier one |
| Bindings.BuildErrPersists | test/samples/block-scoping.js:70-77 | once a prefix of the declarations is refused, the whole list is refused with the same error |
| Renamer.ReferencedInMeans | test/samples/block-scoping.js:328-378 | a name counts as referenced through a function exactly when some reference inside it resolves outside it or nowhere |
| Renamer.HoistStepChoosesFirstFree | test/samples/block-scoping.js:8-68 | each hoisted binding takes the first name free in its hoist target, given the names already taken there |
| Renamer.RecordDeconflicted | test/samples/block-scoping.js:8-68 | recording a name neither fixed in the target nor already taken there keeps every chosen name distinct and clear |
| Renamer.HoistStepDeconflicted | test/samples/block-scoping.js:8-68 | one renaming step keeps the choices collision-free |
| Renamer.RenameAllDeconflicted | test/samples/block-scoping.js:8-68 | after renaming, bindings sharing a target have distinct names, and none is bound in or referenced through that target |
| Renamer.NoCollisionStep | test/samples/block-scoping.js:356-378 | recording a binding under its own name, free among earlier choices, keeps "every binding kept its name" |
| Renamer.NoCollisionKeepsNames | test/samples/block-scoping.js:356-378 | when nothing collides, every hoisted binding keeps its own name |
| Renamer.SiblingStep | test/samples/block-scoping.js:8-68 | the k-th same-named sibling takes the k-th sibling name, which joins the target's taken names |
| Renamer.SiblingsNumbered | test/samples/block-scoping.js:8-68 | same-named blocks sharing a target with nothing in the way are named `x`, `x$1`, `x$2`, … in source order |
| Patterns.Desugar | test/samples/block-scoping.js:380-442 | a pattern is refused iff it holds an object rest; otherwise one declarator per bound name, left to right, each under its renamed name |
| Patterns.FlattenOrder | test/samples/block-scoping.js:380-442 | flattening yields one step per bound name, in the pattern's left-to-right order |
| Patterns.ArrayOrder | test/samples/block-scoping.js:402-442 | an array pattern's steps are its elements' steps in order, followed by the rest element's |
| Patterns.PropsOrder | test/samples/block-scoping.js:380-399 | the steps of an object pattern follow its properties in order |
| Patterns.ElemsOrder | test/samples/block-scoping.js:402-420 | the steps of array elements follow the elements in order |
| Patterns.FlattenRenameOnlyTargets | test/samples/block-scoping.js:380-442 | renaming changes only the declared targets, never the key or index read from the source |
| Patterns.FlattenReadsSource | test/samples/block-scoping.js:380-442 | every step reads the source expression, through member, index and slice accesses |
| Patterns.FlattenReadsPaths | test/samples/block-scoping.js:380-442 | the k-th declarator reads the source along the k-th target's access path: property `k` as `src.k`, element `i` as `src[i]`, the rest after n elements as `src.slice(n)` |
| Patterns.RenamePatternCorrect | test/samples/block-scoping.js:549-598 | a pattern kept as a pattern and renamed keeps every key, renames exactly its bound names, and a renamed shorthand is spelled out with its key |
| Patterns.ObjectPatternExample | test/samples/block-scoping.js:380-399 | `let { x, y } = point`, under any renaming that sends `x` to `x$1` and keeps `y`, gives `x$1 = point.x`, `y = point.y` |
| Patterns.ArrayPatternExample | test/samples/block-scoping.js:401-420 | `let [ x, y ] = point`, under any renaming that sends `x` to `x$1` and keeps `y`, gives `x$1 = point[0]`, `y = point[1]` |
| Patterns.RestElementExample | test/samples/block-scoping.js:422-442 | `let [ first, second, ...x ] = y`, under any renaming that sends `x` to `x$1` and keeps the others, reads `y[0]`, `y[1]` and `y.slice(2)` |
| Patterns.KeptShorthandExample | test/samples/block-scoping.js:568-585 | a kept shorthand `{ x }` whose binding is renamed to `x$1` becomes `{ x: x$1 }` |
| Transform.ConstCheck | test/samples/block-scoping.js:79-140 | no error iff no occurrence writes a const-bound name; otherwise the error names the first such write |
| Transform.DestructuredConstWriteRejected | test/samples/block-scoping.js:88-131 | a destructuring assignment with any const-bound target is refused, whatever the target's position |
| Transform.RunErrors | test/samples/block-scoping.js:70-140 | the stage fails on a redeclaration with the duplicate error, otherwise exactly on a write to a const; the `letConst` switch changes neither verdict, and with it off the output is the input |
| Transform.RenameAllCoversQueue | test/samples/block-scoping.js:8-68 | exactly the bindings in the queue receive a name |
| Transform.HoistedRenamed | test/samples/block-scoping.js:8-68 | every hoisted binding receives a name; two sharing a target receive different names; none takes a name in use in the target |
| Transform.HoistedNamesDistinct | test/samples/block-scoping.js:8-68 | in the output, two hoisted bindings sharing a target are declared under different names, none of them in use in the target |
| Transform.OccupantForcesRename | test/samples/block-scoping.js:162-302 | a declaration of any kind that lands in a hoisted binding's target keeps that binding off its name |
| Transform.QueueHasHoisted | test/samples/block-scoping.js:8-68 | every hoisted declaration is queued for renaming |
| Transform.QueueOnlyHoisted | test/samples/block-scoping.js:8-68 | only hoisted `let`/`const` declarations are queued for renaming |
| Transform.UnhoistedKeepsName | test/samples/block-scoping.js:36-68 | in an accepted program every declaration that is not hoisted (a `var`, a parameter, a top-level `let`) is emitted under its own name |
| Transform.BlockRenames | test/samples/block-scoping.js:380-442 | the renames of a block hold exactly the names the renamer decided for bindings of that block, with those decisions |
| Transform.BlockRenamesNameDecl | test/samples/block-scoping.js:380-442 | a `let`/`const` is declared under the name the renames of its block give it |
| Transform.DesugarMatchesDecls | test/samples/block-scoping.js:380-442 | a destructuring declaration desugared under its block's renames assigns, step by step, exactly the names the stage declares for its targets, each read along the target's access path |
| Transform.RenamePatternMatchesDecls | test/samples/block-scoping.js:568-585 | a destructuring declaration kept as a pattern and respelled under its block's renames binds exactly the names the stage declares for its targets, with every key kept |
| Transform.RenameFollowsResolution | test/samples/block-scoping.js:142-160 | a reference prints the new name of the binding it resolves to; a name changes only for a reference whose binding was renamed; a shorthand keeps its key |
| Transform.NoCollisionOnlyKeywords | test/samples/block-scoping.js:469-489 | when nothing collides, the output differs from the input only by `let`/`const` becoming `var` |
| Analysis.ScopeAnalysis.constructor | test/samples/block-scoping.js:1-6 | a new analysis has empty tables and no renaming decisions |
| Analysis.ScopeAnalysis.LexicalAbove | test/samples/block-scoping.js:70-77 | the loop finds a lexical binding of the name on the span exactly when `LexicalOnSpan` holds |
| Analysis.ScopeAnalysis.ClaimSpan | test/samples/block-scoping.js:36-68 | the loop leaves `claimed == Claim(scopes, old(claimed), s, n)`; the tables and the renaming state are unchanged |
| Analysis.ScopeAnalysis.Declare | test/samples/block-scoping.js:70-77 | one declaration is registered, or the redeclaration is reported and nothing changes |
| Analysis.ScopeAnalysis.BuildTables | test/samples/block-scoping.js:70-77 | the walk fills the tables exactly as table building does, and stops at the first redeclaration |
| Analysis.ScopeAnalysis.Hoist | test/samples/block-scoping.js:8-68 | one binding takes the first free name in its target, which is then taken |
| Analysis.ScopeAnalysis.HoistOrder | test/samples/block-scoping.js:8-68 | the hoisted bindings are queued block by block in source order, and in source order within a block |
| Analysis.ScopeAnalysis.Deconflict | test/samples/block-scoping.js:8-68 | the renaming loop reaches the state of the renaming fold over that queue |
| Analysis.ScopeAnalysis.Emit | test/samples/block-scoping.js:142-160 | every declaration and occurrence is rewritten under the chosen names |
| Analysis.Analyze | test/samples/block-scoping.js:1-6 | the stage run as an object gives the same result as `Run` |
| Fixtures.SiblingBlocksRenamed | test/samples/block-scoping.js:8-34 | three top-level blocks declaring `let x` become `var x`, `var x$1`, `var x$2`, each use following its own block |
| Fixtures.NestedBlocksRenamed | test/samples/block-scoping.js:36-68 | the same three blocks inside a function are numbered `x`, `x$1`, `x$2` there, beside an outer `var x` that keeps its name |
| Fixtures.DoubleLetRejected | test/samples/block-scoping.js:70-77 | `let x` twice in one scope is refused with the duplicate error for `x` |
| Fixtures.DuplicateMessageForX | test/samples/block-scoping.js:70-77 | that error reads "Identifier 'x' has already been declared" |
| Fixtures.ReadOnlyMessageForX | test/samples/block-scoping.js:79-86 | the const error reads "x is read-only" |
| Fixtures.ConstAssignRejected | test/samples/block-scoping.js:79-86 | assigning or updating a const is refused as read-only, and reading it is not |
| Fixtures.SelfNamedRenamed | test/samples/block-scoping.js:224-262 | a block's `let foo` keeps its name beside a function expression named `foo`, and becomes `foo$1` inside that function's body; a class expression's own name (lines 304-326) is the same case |
| Fixtures.ClosureRenamed | test/samples/block-scoping.js:328-378 | an inner block's `const x` becomes `x$1` when the outer parameter `x` is used in the same function, and keeps its name otherwise |
| Fixtures.ShadowedConstAccepted | test/samples/block-scoping.js:491-519 | writes that resolve to a later shadowing `let` are accepted, and the program is rewritten without renames |
| Fixtures.DisabledUnchanged | test/samples/block-scoping.js:444-467 | with `letConst` off, the program is left as it is |
| Shadowing.TopLevelLetTranspiled | test/samples/block-scoping.js:1-6 | a top-level `let x` becomes `var x` under its own name |
| Shadowing.OccupantRenamed | test/samples/block-scoping.js:142-222 | whatever binds `foo` in the global scope (a `var`, a function, class or import declaration, a `let` or `const`; lines 284-302 and 521-539 too), a block's `let foo` becomes `foo$1` with its references, and a member name `this.foo` stays as written |
| Shadowing.ShadowedParamRenamed | test/samples/block-scoping.js:264-282 | a block's `let foo` inside a function with a parameter `foo` becomes `foo$1`, with its use |
| Shadowing.LetBesideSelfNameAccepted | test/samples/block-scoping.js:224-262 | a `let foo` directly in the body of a function expression named `foo` is accepted, and takes the name over there; the records at these lines place the own name in that body's scope |
| Shadowing.VarThroughLetRejected | test/samples/block-scoping.js:70-77 | a `var x` inside a block nested in a block binding `let x` is refused with the duplicate error, whatever the options |
| Shadowing.ForwardReferenceKept | test/samples/block-scoping.js:469-489 | a closure that refers to a `let` declared after it changes nothing: both become `var` under their own names |
| Destructuring.PairRenamed | test/samples/block-scoping.js:380-420 | with an outer `x`, a block's `x` becomes `x$1` and `y` stays; a use of `x` follows, and a shorthand `{ x }` becomes `{ x: x$1 }` (lines 549-566) |
| Destructuring.PairDesugared | test/samples/block-scoping.js:380-420 | under the renames the stage decides for that block, `let { x, y } = point` gives `x$1 = point.x`, `y = point.y`, and `let [ x, y ] = point` gives `x$1 = point[0]`, `y = point[1]` |
| Destructuring.RestBlockRenamed | test/samples/block-scoping.js:422-442 | the rest element's `x` becomes `x$1` with its use, and the declaration reads `y[0]`, `y[1]`, `y.slice(2)` into `first`, `second`, `x$1` |
| Destructuring.KeptPatternRenamed | test/samples/block-scoping.js:568-585 | the block's `const { x } = y`, kept as a pattern, declares `x$1` and is spelled `{ x: x$1 }`; `y` keeps its name |
| Destructuring.ForInShorthandRenamed | test/samples/block-scoping.js:587-598 | a loop's `const x` shadowing a global `x` becomes `x$1`, and the shorthand `{ x }` in the loop head that refers to it becomes `{ x: x$1 }` |

## Left out

- Parsing source text and printing it back. This includes the braces added
  around a block-less `if` (lines 541-547). Programs are abstract: a scope
  arena, declarations and occurrences.
- The class-to-function and IIFE output shapes (lines 295-326) belong to the
  class transform. Only their effect is kept: which names are bound in which
  scope.
- The arrow-function, concise-method and module-import transforms (lines 162-202,
  521-539, 549-566). Their options only switch those transforms, and the
  model carries only the `letConst` option.
- Object rest in a declaration pattern: `Desugar` returns no steps for it,
  and the model has no output form for such a pattern. Nothing in the
  records fixes what an object rest reads.
- Pattern defaults (`{ x = 1 }`, `[ x = 1 ]`) and computed keys
  (`{ [k]: x }`): patterns have plain keys and no initialisers, since no
  record exercises either.
- Destructuring inside `Run`: a program lists a pattern's bound names as
  declarations, in order. The declarators and the kept pattern are stated
  beside `Run`, under the renames it decides for the block
  (`DesugarMatchesDecls`, `RenamePatternMatchesDecls`), rather than
  produced by it.
- Iterator-based array destructuring: array patterns read by index and slice.
- Source locations, and error formatting beyond the message text.
- Free identifiers that play no part in a record, such as `console` and the
  conditions of `if` statements, are omitted from the fixture programs. They
  resolve to no binding and occupy only names nothing declares.
- The occupancy rule is inferred from the expected outputs at
  test/samples/block-scoping.js:356-378: a name free in the hoist target but
  bound further out is not occupied unless the target refers to it.
- Two hoisted bindings with one (name, scope) key: the later one would
  overwrite the earlier in the renaming map.
  A redeclaration in one scope always involves `let` or `const` and is refused
  before renaming, so this never happens in a program the stage accepts.
