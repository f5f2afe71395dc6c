# SkSL DSL declaration lowering, modelled in Dafny

This project models `DSLWriter`, the step of the SkSL DSL front end that
turns variable descriptors (`DSLVarBase`) into IR variables and declaration
statements. It covers five operations:

- `Var` binds a descriptor at most once and returns the variable it refers to.
- `CreateParameterVar` resolves a parameter without touching the descriptor.
- `Declaration` moves the descriptor's declaration out, or returns a no-op.
- `AddVarDeclaration` merges the declarations of one surface statement
  (`int a, b, c;`) into a single statement.
- `Reset` replaces the active scope and empties the program elements and
  the modifiers pool.

Files:

- `wrappers.dfy` (module `Wrappers`): `Option`, which stands for a nullable pointer.
- `ir.dfy` (module `IR`): variables, declaration statements, no-ops, blocks of the three
  `Block::Kind`s, `Statement::isEmpty`, `PosOf` (the read of `stmt->fPosition`; a no-op
  from `Nop::Make` has the default position), and `Declared`. `Declared` gives the variables a
  statement makes visible to the code after it. A braced block hides its children's
  declarations; an unbraced or compound block shows them.
- `compilation.dfy` (module `Compilation`): the compilation context as a class. It holds
  the symbol-table stack, the program elements, the modifiers pool, a history of every
  conversion call, and the two conversion services `Variable::Convert` and
  `VarDeclaration::Convert`. The services are oracles: arbitrary functions of the call
  history and their arguments.
- `dsl_writer.dfy` (module `DSLWriter`): the descriptor class `DSLVarBase`, the statement
  handle class `DSLStatement`, the five operations as methods, and the pure functions
  `Bind`, `Lower` and `Merge` that specify them.

Each method's `ensures` ties the new descriptor, handle and history to `Bind`, `Lower` or
`Merge` of the old ones. The properties are stated as the contracts of those functions
and as lemmas about them.

Three facts about the code that the model keeps:

- The "attempted" marker is the boolean `fInitialized`. It is set before either
  conversion runs (src/sksl/dsl/priv/DSLWriter.cpp:36-44).
- `Var` releases the initial value only on the non-parameter path (lines 53-56).
  For a parameter, only `Declaration` releases it (line 84).
- `CreateParameterVar` returns `Variable::Convert`'s answer unchanged, and that
  answer may be absent (lines 69-76).

## Model

| member | source | states |
|---|---|---|
| `DSLWriter.Bind` | src/sksl/dsl/priv/DSLWriter.cpp:35-63 | After any call the descriptor is marked attempted. An attempted descriptor is returned unchanged and no conversion call is made. A first attempt calls `Variable::Convert` exactly once. A parameter then gets no declaration, no variable and keeps its initial value. Any other storage makes exactly one `VarDeclaration::Convert` call, which receives the initial value; the initial value is released, and the descriptor refers to a variable exactly when a declaration was produced, namely that declaration's variable. The descriptor invariant is preserved. |
| `DSLWriter.VarIsIdempotent` | src/sksl/dsl/priv/DSLWriter.cpp:39-62 | A second `Var` call makes no conversion call and returns the same variable as the first. |
| `DSLWriter.RepeatedVarBindsOnce` | src/sksl/dsl/priv/DSLWriter.cpp:36-44 | Any number k ≥ 1 of successive `Var` calls makes exactly the conversion calls of one call and leaves the same state. A failed conversion is never retried. |
| `DSLWriter.Lower` | src/sksl/dsl/priv/DSLWriter.cpp:79-88 | The result is always a declaration or a no-op. It binds exactly as `Var` does, and the declaration no longer stays in the descriptor. With no declaration the result is a no-op and the initial value is released. Otherwise the result is that declaration. The descriptor invariant is preserved. |
| `DSLWriter.ParameterLowersToNop` | src/sksl/dsl/priv/DSLWriter.cpp:53-60 | A parameter descriptor lowers to a no-op and its initial value is released. |
| `DSLWriter.FailedResolutionLowersToNop` | src/sksl/dsl/priv/DSLWriter.cpp:80-85 | If resolution fails on the first attempt, and the declaration service declines an unresolved variable, the result is a no-op, the initial value is released and no variable is referenced. |
| `DSLWriter.Merge` | src/sksl/dsl/priv/DSLWriter.cpp:90-120 | Case 1: an absent or empty statement is discarded and the result is the new declaration. Case 2: a non-empty unbraced or compound block gets the new declaration appended last; its kind, position and other children are unchanged. Case 3: anything else, a braced block included, becomes a compound block `[old, new]` at the old statement's position. A braced block comes out of a merge only as the new statement itself. A merge into a non-empty statement keeps that statement's position. |
| `DSLWriter.MergeKeepsVisibleDeclarations` | src/sksl/dsl/priv/DSLWriter.cpp:99-119 | After a merge, the visible variables are exactly the old statement's followed by the new one's. No declaration moves into or out of a braced scope. |
| `DSLWriter.MergeAllIsFlat` | src/sksl/dsl/priv/DSLWriter.cpp:99-107 | Merging n ≥ 2 lowered declarations, the first one successful, into an absent handle gives one flat compound block of all n in order, at the first one's position. Failed (no-op) declarations after the first keep their place, with `Block::Make` building the block as written. |
| `DSLWriter.MergeAllKeepsVisibleDeclarations` | src/sksl/dsl/priv/DSLWriter.cpp:90-120 | After any number of successive merges, the visible variables are the initial statement's followed by those of every merged declaration, in order. |
| `DSLWriter.MergeAllFirst` | src/sksl/dsl/priv/DSLWriter.cpp:90-120 | Merging a sequence of declarations is merging the first one and then the rest into the result. |
| `DSLWriter.EmptyHandleIsDiscarded` | src/sksl/dsl/priv/DSLWriter.cpp:91-97 | A handle holding an empty statement ends, after any non-empty sequence of merges, exactly as an absent handle would. |
| `DSLWriter.LeadingFailureIsDropped` | src/sksl/dsl/priv/DSLWriter.cpp:92-96 | A failed (no-op) declaration at the start of a surface statement does not keep its place: the next merge discards it. |
| `DSLWriter.SurfaceStatementScenarios` | src/sksl/dsl/priv/DSLWriter.cpp:91-119 | For `int a = 1, b = a;`, the first merge gives `decl(a)` and the second gives the compound block `[decl(a), decl(b)]` at a's position. With b failed, `a, b, c` gives `[decl(a), nop, decl(c)]`. With a failed, it gives `[decl(b), decl(c)]` at b's position. Both hold with `Block::Make` building the block as written. |
| `IR.IsEmpty` | src/sksl/dsl/priv/DSLWriter.cpp:92 | `stmt->isEmpty()`: a no-op is always empty and a declaration never is. A block holding a declaration is not empty. |
| `DSLWriter.DSLVarBase.constructor` | src/sksl/dsl/priv/DSLWriter.cpp:39-56 | A new descriptor carries the arguments that `Variable::Convert` receives and its initial value. It is unattempted, refers to no variable and owns no declaration, so the descriptor invariant holds. |
| `DSLWriter.DSLStatement.constructor` | src/sksl/dsl/priv/DSLWriter.cpp:90-119 | The `existing` handle holds the given statement, or none. |
| `DSLWriter.Var` | src/sksl/dsl/priv/DSLWriter.cpp:35-63 | The new descriptor state and the context's call history are those given by `Bind`. The result is the descriptor's variable reference. The descriptor invariant holds before and after. |
| `DSLWriter.CreateParameterVar` | src/sksl/dsl/priv/DSLWriter.cpp:65-77 | It calls `Variable::Convert` once, unconditionally, and returns its answer. The descriptor is unchanged. |
| `DSLWriter.Declaration` | src/sksl/dsl/priv/DSLWriter.cpp:79-88 | The returned statement, the new descriptor state and the call history are those given by `Lower`. |
| `DSLWriter.AddVarDeclaration` | src/sksl/dsl/priv/DSLWriter.cpp:90-120 | The handle ends holding `Merge` of its old statement and the lowered declaration. The descriptor and history change as `Lower` says. |
| `DSLWriter.Reset` | src/sksl/dsl/priv/DSLWriter.cpp:122-129 | The scope stack keeps its depth and its lower scopes. The top scope is fresh and empty, distinct from every scope that was on the stack. The program elements and the modifiers pool are empty. No conversion call is made. |
| `Compilation.ReplaceTopScope` | src/sksl/dsl/priv/DSLWriter.cpp:125-126 | Pop followed by push keeps the depth and every scope below the top, and leaves an empty top scope. |
| `Compilation.Context.ConvertVariable` | src/sksl/dsl/priv/DSLWriter.cpp:45-52 | It returns the resolution service's answer for the history so far and records the call. |
| `Compilation.Context.ConvertDeclaration` | src/sksl/dsl/priv/DSLWriter.cpp:54-56 | It returns the declaration service's answer for the history so far and records the call. |
| `Compilation.Context.PopScope` | src/sksl/dsl/priv/DSLWriter.cpp:125 | The active scope is removed from the stack. |
| `Compilation.Context.PushScope` | src/sksl/dsl/priv/DSLWriter.cpp:126 | A fresh, empty scope becomes the active one. It is distinct from every scope on the stack. |

## Left out

- The internals of `SkSL::Variable::Convert` and `VarDeclaration::Convert` are not modelled: type checking, symbol-table insertion and diagnostics. They are oracles whose answers depend only on the history of earlier conversion calls and their own arguments. They do not see the scope stack. Because symbol-table insertion is left out, `Var`, `Declaration` and `AddVarDeclaration` may change only the context's call history: the model says they leave the scope stack unchanged, whereas in the program `VarDeclaration::Convert` adds the new variable to the active scope.
- `Statement::isEmpty` is defined in SkSL's statement headers, which are not part of this model. It is modelled as true for a no-op, true for a block whose children are all empty, and false otherwise.
- `SkSL::Block::Make` is not part of this model. It is modelled as building the two-child compound block literally, with no folding.
- The `DSLStatement(stmt, pos)` constructor's own position handling is not part of this model. The handle receives the block as built.
- Ownership is modelled as moves between fields. `unique_ptr`, `releaseIfPossible` and `reserve_back` become setting a field to `None`. Statements are values, so the in-place `push_back` onto the block's children becomes rebuilding the block with one more child. Aliasing of the block by other owners is not modelled.
- Variables are values: the non-owning `Variable*` becomes an equal copy of the declaration's variable, not a pointer to it.
- The thread-local `ThreadContext` is an explicit `Context` argument.
- `SkASSERT` checks become preconditions and the descriptor invariant `Valid`.
- `SymbolTable::Pop` and `SymbolTable::Push` are not part of this model. The builtin flag of a pushed table is not modelled; a pushed scope is fresh and empty.
- `DSLParameter` descriptors are `DSLVarBase` descriptors. The position, modifiers, type, name and storage fields are constant, since no modelled operation changes them.
- `DSLWriter.FailedResolutionLowersToNop`: it relies on the declaration service declining an unresolved variable. That behaviour belongs to `VarDeclaration::Convert`, which is not part of this model, so the lemma takes it as a hypothesis.
