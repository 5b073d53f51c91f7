# Morel / SML language core in Dafny

This project models the language core of hydromatic's Morel, a Standard ML interpreter written in Java, at the
stage where two package generations (`net.hydromatic.sml` and `net.hydromatic.morel`) live side by side. It
covers four parts, each checked against its own collaborators:

- **Robinson unifier** (`sml/util/Unifier.java`): terms are atoms, variables or sequences. The `Unifier`
  object interns them in per-instance tables and draws fresh variables `T0`, `T1`, … from a counter.
  - `unify` is first-order unification without an occurs check.
  - A substitution can be composed with another, or resolved to a fixed point.
  - Files: `terms.dfy` holds terms, application and printing; `unification.dfy` holds unification,
    composition and resolution; `unifier.dfy` holds the interning class, variable names and the
    substitution builder.
- **Type resolver and statement compiler** (`sml/compile/Compiler.java`), in `compiler.dfy`.
  - The type resolver walks an expression and emits `term = variable` constraints.
  - The typing environment is a persistent shadowing chain, and the type system interns function types.
  - `compile` maps expressions to code.
  - `compileStatement` turns a statement into named bindings, and its `eval` runs them and reports one
    line per name.
- **Compile-time environment** (`morel/compile/Environment.java`, `Environments.java`), in
  `environments.dfy`: an immutable chain of `(name, type, value)` bindings with single, empty and
  map-backed links, and a bulk bind that switches representation at five bindings.
- **Run-time environment and pattern binder** (`morel/eval/EvalEnvs.java`), in `evalenvs.dfy`: single-slot,
  mutable single-slot, array-backed and pattern-backed links over a map leaf, and the pattern binder that
  fills consecutive slots.

Conventions:

- A Java exception becomes `Err(message)` of the `Result` type in `wrappers.dfy`. The message is the
  exception's message where the code gives one, and otherwise the exception's class name
  (`"ClassCastException"`, `"AssertionError"`).
- Java `null` becomes `None`.
- `javaints.dfy` holds the 32-bit truncation of `BigDecimal.intValue`.
- Java object identity of interned terms is modelled as equality of values. The interning tables are
  kept as maps, and their invariant states that every entry is the value its key names.
- Unification has no structural measure: without an occurs check a substitution can grow the terms still
  to be unified. `Unify` therefore takes fuel and has a separate `OutOfFuel` outcome.
  `UnifyFuelMonotone` shows that fuel never changes an answer once one is reached.

## Model

| member | source | states |
|---|---|---|
| JavaInts.Wrap32 | src/main/java/net/hydromatic/sml/compile/Compiler.java:195-197 | the result is the integer itself when it fits in 32 bits, and is congruent to it modulo 2^32 in every case |
| Terms.Fn | src/main/java/net/hydromatic/sml/util/Unifier.java:274-289 | a sequence term is its head atom followed by exactly the given arguments |
| Terms.ApplyEmpty | src/main/java/net/hydromatic/sml/util/Unifier.java:216-252 | applying the empty substitution leaves every term unchanged |
| Terms.ApplyVars | src/main/java/net/hydromatic/sml/util/Unifier.java:306-308 | applying a substitution introduces no variable that is not in the term or in the substitution's values |
| Terms.PrintNestedSequence | src/test/java/net/hydromatic/sml/UnifierTest.java:130-137 | `p(f(a), g(b), Y)` prints as written there: a one-element sequence prints as its head alone |
| Unification.UnifyList | src/main/java/net/hydromatic/sml/util/Unifier.java:142-149 | the list form succeeds exactly when it is given one pair, and then it is `unify` of that pair |
| Unification.UnifyAtoms | src/main/java/net/hydromatic/sml/util/Unifier.java:158-160 | two atoms unify to the empty substitution when they are the same atom and otherwise do not unify |
| Unification.UnifyVariable | src/main/java/net/hydromatic/sml/util/Unifier.java:152-157 | when either side is a variable the result is the singleton substitution binding it to the other side, with no occurs check |
| Unification.UnifyShapeMismatch | src/main/java/net/hydromatic/sml/util/Unifier.java:113-165 | an atom and a sequence never unify, sequences of different lengths never unify, and two empty sequences unify to the empty substitution |
| Unification.UnifyFuelMonotone | src/main/java/net/hydromatic/sml/util/Unifier.java:151-165 | once unification reaches an answer, more fuel gives the same answer |
| Unification.SequenceUnifyFuelMonotone | src/main/java/net/hydromatic/sml/util/Unifier.java:113-136 | the same for sequence unification |
| Unification.UnifyIntroducesNoVariables | src/main/java/net/hydromatic/sml/util/Unifier.java:151-165 | every variable in a unifier's values already occurs in one of the two terms |
| Unification.SequenceUnifyIntroducesNoVariables | src/main/java/net/hydromatic/sml/util/Unifier.java:113-136 | the same for sequence unification, including the merge of head and tail results |
| Unification.UnifyGroundIsEquality | src/main/java/net/hydromatic/sml/util/Unifier.java:151-165 | two terms without variables unify, to the empty substitution, exactly when they are equal; fuel as large as the left term's nesting depth always reaches that answer |
| Unification.SequenceUnifyGroundIsEquality | src/main/java/net/hydromatic/sml/util/Unifier.java:113-136 | two sequences without variables unify exactly when they are equal, given fuel above the depth of every left element |
| Unification.Compose | src/main/java/net/hydromatic/sml/util/Unifier.java:104-111 | the loop builds the composition: the second substitution's keys map to their values with the first applied, and the first's remaining keys are kept |
| Unification.ApplyComposition | src/main/java/net/hydromatic/sml/util/Unifier.java:104-111 | applying the composition is applying the second substitution and then the first |
| Unification.Resolve | src/main/java/net/hydromatic/sml/util/Unifier.java:202-210 | the loop stops at the first fixed point of repeated application; applying the substitution to the result gives the result |
| Unification.UnifyTest2 | src/test/java/net/hydromatic/sml/UnifierTest.java:139-143 | `p(f(a),g(b),Y)` and `p(Z,g(W),c)` unify to `[b/W, c/Y, f(a)/Z]` |
| Unification.UnifyTest5 | src/test/java/net/hydromatic/sml/UnifierTest.java:159-163 | `p(a,X)` and `p(b,Y)` do not unify |
| Unification.UnifyTest9 | src/test/java/net/hydromatic/sml/UnifierTest.java:183-187 | `f(g(X),X)` and `f(Y)` do not unify, because their lengths differ |
| Unification.UnifyTest16 | src/test/java/net/hydromatic/sml/UnifierTest.java:225-229 | the nested example unifies to the substitution the test expects |
| Unification.UnifyTest17 | src/test/java/net/hydromatic/sml/UnifierTest.java:231-239 | `p(X,X)` and `p(Y,f(Y))` unify to `[Y/X, f(Y)/Y]` although `Y` occurs in `f(Y)` |
| Unification.UnifyDiverges | src/main/java/net/hydromatic/sml/util/Unifier.java:113-165 | unifying `[X, X]` with `[[X, X], [X, X]]` binds `X` and then meets the same problem one level deeper, so no amount of fuel reaches an answer |
| Unification.ResolveOfTest17Diverges | src/main/java/net/hydromatic/sml/util/Unifier.java:202-210 | resolving `X` under that substitution never reaches a fixed point, so `resolve` would loop forever |
| Unification.NoOccursCheckIsUnsound | src/main/java/net/hydromatic/sml/util/Unifier.java:42-44 | without an occurs check a returned unifier need not make the two terms equal |
| Unifiers.ParseVarNameOfVarName | src/main/java/net/hydromatic/sml/util/Unifier.java:60-69 | the name `T<k>` of a fresh variable determines `k` |
| Unifiers.IsVariableNameIffUpper | src/main/java/net/hydromatic/sml/util/Unifier.java:239-253 | a name is accepted as a variable exactly when it contains an upper-case letter |
| Unifiers.VarNameIsVariableName | src/main/java/net/hydromatic/sml/util/Unifier.java:60-69 | every generated name `T<k>` passes the variable-name check |
| Unifiers.SubstitutionOfMeaning | src/main/java/net/hydromatic/sml/util/Unifier.java:80-90 | the builder succeeds exactly on an even-length list with a variable at every odd position and no variable repeated, and then maps each such variable to the term before it |
| Unifiers.MakeSubstitution | src/main/java/net/hydromatic/sml/util/Unifier.java:80-90 | the loop builds exactly that substitution or fails in those cases |
| Unifiers.SubstitutionTest1 | src/test/java/net/hydromatic/sml/UnifierTest.java:134-135 | the test's substitution maps `Z` to `f(a, Y)` |
| Unifiers.Unifier.constructor | src/main/java/net/hydromatic/sml/util/Unifier.java:35-39 | a new unifier has empty tables and counter 0 |
| Unifiers.Unifier.AtomNamed | src/main/java/net/hydromatic/sml/util/Unifier.java:72-74 | returns the atom of that name, records it, and changes no other table |
| Unifiers.Unifier.VariableNamed | src/main/java/net/hydromatic/sml/util/Unifier.java:55-57 | succeeds exactly for variable names, records the variable, and fails without changing the table otherwise |
| Unifiers.FirstFreshId | src/main/java/net/hydromatic/sml/util/Unifier.java:61-63 | the loop of `variable()` stops at the first counter value at or above the start whose name `T<k>` the table does not hold |
| Unifiers.Unifier.FreshVariable | src/main/java/net/hydromatic/sml/util/Unifier.java:60-69 | returns a variable `T<k>` not in the table, skipping exactly the names already taken, and advances the counter past it |
| Unifiers.Unifier.ApplyNamed | src/main/java/net/hydromatic/sml/util/Unifier.java:46-52 | returns the sequence already filed under the printed form if there is one, and otherwise files the new one |
| Unifiers.Unifier.ApplyStructural | src/main/java/net/hydromatic/sml/util/Unifier.java:46-52 | corrected interning keyed by the sequence itself: the result is always the requested sequence |
| Unifiers.PrintIsNotInjective | src/main/java/net/hydromatic/sml/util/Unifier.java:291-304 | two different sequences can print the same |
| Unifiers.ApplyNamedCollision | src/main/java/net/hydromatic/sml/util/Unifier.java:46-52 | after `p` applied to atom `X`, asking for `p` applied to variable `X` returns the atom version |
| Unifiers.ApplyStructuralKeepsApart | src/main/java/net/hydromatic/sml/util/Unifier.java:46-52 | the corrected interning returns the two different sequences |
| Unifiers.ApplyStructuralReuses | src/main/java/net/hydromatic/sml/util/Unifier.java:46-52 | a second corrected `apply` with the same functor and arguments returns the term the first one interned and adds no entry |
| Environments.Get | src/main/java/net/hydromatic/morel/compile/Environment.java:63-69 | returns the binding `getOpt` finds, and fails with "expected value for" the name exactly when there is none |
| Environments.GetOptNamesMatch | src/main/java/net/hydromatic/morel/compile/Environment.java:60 | a binding found under a name carries that name |
| Environments.Bind | src/main/java/net/hydromatic/morel/compile/Environment.java:73-79 | the new environment finds the new binding under its name and agrees with the old one on every other name; it visits the new binding first |
| Environments.Empty | src/main/java/net/hydromatic/morel/compile/Environments.java:41-51 | the initial environment binds exactly `true` and `false` to bool values |
| Environments.GetOptIsFirstVisited | src/main/java/net/hydromatic/morel/compile/Environments.java:99-152 | lookup returns the first binding of that name in visiting order, for single, empty and map-backed links alike |
| Environments.TypeCallsSound | src/main/java/net/hydromatic/morel/compile/Environment.java:83-90 | the type enumeration reports each name at most once, with that name's newest type |
| Environments.TypeCallsComplete | src/main/java/net/hydromatic/morel/compile/Environment.java:83-90 | every bound name is reported |
| Environments.ValueCallsSound | src/main/java/net/hydromatic/morel/compile/Environment.java:94-101 | the value enumeration reports each name at most once, with its newest value, and never a unit value |
| Environments.ValueCallsComplete | src/main/java/net/hydromatic/morel/compile/Environment.java:94-101 | every name whose newest value is not unit is reported; an older binding under a unit-valued name is not |
| Environments.ForEachType | src/main/java/net/hydromatic/morel/compile/Environment.java:83-90 | the loop calls the consumer once per distinct name with the type lookup gives |
| Environments.ForEachValue | src/main/java/net/hydromatic/morel/compile/Environment.java:94-101 | the loop calls the consumer once per name whose newest value is not unit, with that value |
| Environments.GetValueMap | src/main/java/net/hydromatic/morel/compile/Environment.java:104-108 | the map holds exactly the bound names, each mapped to its newest binding |
| Environments.BindEachMeaning | src/main/java/net/hydromatic/morel/compile/Environments.java:84-90 | binding one by one makes the last binding of a name win, and visits the batch in reverse before the parent |
| Environments.BindBatch | src/main/java/net/hydromatic/morel/compile/Environments.java:84-95 | below five bindings it chains single links; from five on it adds one map-backed link, and fails on repeated names |
| Environments.BindAll | src/main/java/net/hydromatic/morel/compile/Environment.java:112-114 | delegates to the batch bind with the same outcome |
| Environments.BulkBindAgreesWithOneByOne | src/main/java/net/hydromatic/morel/compile/Environments.java:143-151 | for distinct names, lookup after the map-backed bind agrees with lookup after binding one by one |
| EvalEnvs.BindIsMatchWritten | src/main/java/net/hydromatic/morel/eval/EvalEnvs.java:149-234 | the binder gives the result of a slot-free matcher and writes exactly the captured values into consecutive slots from the current one, including the writes made before a failure |
| EvalEnvs.BindConsIsMatchWritten | src/main/java/net/hydromatic/morel/eval/EvalEnvs.java:208-218 | the same for a cons pattern on a non-empty list: head first, then tail, stopping at the first failure |
| EvalEnvs.BindEachIsMatchWritten | src/main/java/net/hydromatic/morel/eval/EvalEnvs.java:174-206 | the same for the pairwise walk of tuple, record and list components |
| EvalEnvs.TupleBindIsNotAtomic | src/main/java/net/hydromatic/morel/eval/EvalEnvs.java:174-182 | `(x, 1)` against `(5, 2)` fails after already writing 5 into the slot of `x` |
| EvalEnvs.TupleBindTruncates | src/main/java/net/hydromatic/morel/eval/EvalEnvs.java:174-182 | zipping stops at the shorter side, so `(x)` matches `(5, 2)` |
| EvalEnvs.ListAndConsLengths | src/main/java/net/hydromatic/morel/eval/EvalEnvs.java:195-218 | a list pattern fails on a list of another length, and a cons pattern fails on the empty list, both without writing |
| EvalEnvs.IntLiteralWraps | src/main/java/net/hydromatic/morel/eval/EvalEnvs.java:166-168 | an int literal pattern compares the literal's low 32 bits with the value |
| EvalEnvs.IndexOf | src/main/java/net/hydromatic/morel/eval/EvalEnvs.java:115-121 | the index found is the first position of the name |
| EvalEnvs.CopyOf | src/main/java/net/hydromatic/morel/eval/EvalEnvs.java:35-37 | the copy finds exactly the map's values and nothing else |
| EvalEnvs.GetOpt | src/main/java/net/hydromatic/morel/eval/EvalEnvs.java:63-121 | the walk returns the value of the nearest link that binds the name, with the map leaf answering last |
| EvalEnvs.SubEvalEnv.constructor | src/main/java/net/hydromatic/morel/eval/EvalEnvs.java:48-52 | a link holds its parent, name and value |
| EvalEnvs.SubEvalEnv.Mutable | src/main/java/net/hydromatic/morel/eval/EvalEnvs.java:79-81 | a mutable link starts without a value |
| EvalEnvs.SubEvalEnv.Set | src/main/java/net/hydromatic/morel/eval/EvalEnvs.java:83-85 | sets only this link's value |
| EvalEnvs.MutableArraySubEvalEnv.constructor | src/main/java/net/hydromatic/morel/eval/EvalEnvs.java:94-97 | a new array-backed link has its names and no values yet |
| EvalEnvs.MutableArraySubEvalEnv.Set | src/main/java/net/hydromatic/morel/eval/EvalEnvs.java:103-106 | takes values as long as the names and installs them |
| EvalEnvs.MutablePatSubEvalEnv.constructor | src/main/java/net/hydromatic/morel/eval/EvalEnvs.java:129-134 | a new pattern-backed link has one empty slot per name |
| EvalEnvs.MutablePatSubEvalEnv.SetOpt | src/main/java/net/hydromatic/morel/eval/EvalEnvs.java:144-147 | restarts at slot 0 and binds the whole pattern |
| EvalEnvs.MutablePatSubEvalEnv.Set | src/main/java/net/hydromatic/morel/eval/EvalEnvs.java:136-142 | fails with "bind failed" exactly when the binding returns false |
| EvalEnvs.MutablePatSubEvalEnv.BindRecurse | src/main/java/net/hydromatic/morel/eval/EvalEnvs.java:149-234 | the slot array and counter end as the binder function says |
| EvalEnvs.MutablePatSubEvalEnv.BindZip | src/main/java/net/hydromatic/morel/eval/EvalEnvs.java:174-182 | the pairwise loop ends as the pairwise binder function says |
| SmlCompiler.PrimitiveTypeNamed | src/main/java/net/hydromatic/sml/compile/Compiler.java:326-337 | accepts exactly the six names the switch lists, maps `unit` to int, and rejects any other name with "not a primitive type" |
| SmlCompiler.TypeSystem.constructor | src/main/java/net/hydromatic/sml/compile/Compiler.java:317-323 | the table starts with int, bool, string, real and unit under their own names |
| SmlCompiler.TypeSystem.FnTypeOf | src/main/java/net/hydromatic/sml/compile/Compiler.java:340-345 | returns the type filed under the description `p -> r`, filing a new one if there is none |
| SmlCompiler.TypeSystem.FnTypeOfPair | src/main/java/net/hydromatic/sml/compile/Compiler.java:340-345 | corrected interning keyed by the parameter and result types: the result always has the requested parameter and result |
| SmlCompiler.FnDescriptionIsNotInjective | src/main/java/net/hydromatic/sml/compile/Compiler.java:340-345 | `(int -> int) -> int` and `int -> (int -> int)` have the same description |
| SmlCompiler.FnTypeCollision | src/main/java/net/hydromatic/sml/compile/Compiler.java:340-345 | asking for the second after the first returns the first, whose parameter is not int |
| SmlCompiler.FnTypeOfPairKeepsApart | src/main/java/net/hydromatic/sml/compile/Compiler.java:340-345 | the corrected interning returns two different types |
| SmlCompiler.TypeEnv.Bind | src/main/java/net/hydromatic/sml/compile/Compiler.java:401-423 | the new environment finds the new term under its name and agrees with the old one elsewhere |
| SmlCompiler.GetIsNewestBinding | src/main/java/net/hydromatic/sml/compile/Compiler.java:387-423 | lookup returns the newest binding of a name and fails with "not found" when there is none |
| SmlCompiler.DeduceCounts | src/main/java/net/hydromatic/sml/compile/Compiler.java:119-169 | a successful deduction draws a fixed number of fresh variables and emits a fixed number of constraints per construct, each constraining a variable drawn in it |
| SmlCompiler.DeduceInfixCounts | src/main/java/net/hydromatic/sml/compile/Compiler.java:172-178 | an infix call draws one variable and emits one constraint for the result atom and one per operand |
| SmlCompiler.TypeResolver.constructor | src/main/java/net/hydromatic/sml/compile/Compiler.java:115-117 | a new resolver has no constraints and a fresh unifier |
| SmlCompiler.TypeResolver.NewVariable | src/main/java/net/hydromatic/sml/compile/Compiler.java:119-169 | returns the next fresh variable and advances the counter by one |
| SmlCompiler.TypeResolver.AtomOf | src/main/java/net/hydromatic/sml/compile/Compiler.java:184-186 | returns the atom named by the type's description |
| SmlCompiler.TypeResolver.Equiv | src/main/java/net/hydromatic/sml/compile/Compiler.java:180-182 | appends exactly one constraint |
| SmlCompiler.TypeResolver.DeduceExp | src/main/java/net/hydromatic/sml/compile/Compiler.java:119-169 | returns the term the deduction function gives and appends exactly its constraints, or fails as it does |
| SmlCompiler.TypeResolver.Infix | src/main/java/net/hydromatic/sml/compile/Compiler.java:172-178 | the same for an infix call |
| SmlCompiler.TypeResolver.DeduceMatch | src/main/java/net/hydromatic/sml/compile/Compiler.java:154-160 | the same for a match arm, returning `fn(param, body)` built with the print-keyed `apply`; the resolver keeps every key of that table of the form `fn(T<k>, …)` with `k` below the counter, so the lookup for the fresh parameter always misses and the new term is the one returned and filed |
| SmlCompiler.TypeResolver.DeduceNode | src/main/java/net/hydromatic/sml/compile/Compiler.java:119-169 | the same for a node, declarations included |
| SmlCompiler.DeducedAtomIsPrimitive | src/main/java/net/hydromatic/sml/compile/Compiler.java:91-107 | an atom deduced in an environment of primitive atoms names a primitive type, so the table lookup succeeds |
| SmlCompiler.DeduceTypeOf | src/main/java/net/hydromatic/sml/compile/Compiler.java:91-107 | succeeds exactly when the deduced term is an atom, and then returns the primitive type that atom names |
| SmlCompiler.FnExpHasNoType | src/main/java/net/hydromatic/sml/compile/Compiler.java:151-153 | a function expression never gets a type |
| SmlCompiler.IfHasNoType | src/main/java/net/hydromatic/sml/compile/Compiler.java:141-150 | a conditional never gets a type, because its term is a variable |
| SmlCompiler.CompileRoundTrip | src/main/java/net/hydromatic/sml/compile/Compiler.java:189-289 | compiled code decompiles back to the source expression, with int literals truncated to 32 bits |
| SmlCompiler.CompileBindingsRoundTrip | src/main/java/net/hydromatic/sml/compile/Compiler.java:218-237 | the same for the bindings of a `let` |
| SmlCompiler.SmallIntLiteralCompilesExactly | src/main/java/net/hydromatic/sml/compile/Compiler.java:195-197 | an int literal that fits in 32 bits compiles to that constant |
| SmlCompiler.Put | src/main/java/net/hydromatic/sml/compile/Compiler.java:59-67 | the insertion-ordered map keeps a present name in place, appends a new one, maps the name to the new value and leaves other names alone |
| SmlCompiler.StatementDecl | src/main/java/net/hydromatic/sml/compile/Compiler.java:52-58 | a bare expression becomes a declaration of `it`, a declaration stays as it is, and anything else fails |
| SmlCompiler.StatementCodesNames | src/main/java/net/hydromatic/sml/compile/Compiler.java:59-67 | the compiled entries have distinct names, exactly the declared ones |
| SmlCompiler.ReportLinesSplit | src/main/java/net/hydromatic/sml/compile/Compiler.java:75-87 | the report for two runs of bindings is the two reports one after the other |
| SmlCompiler.Eval | src/main/java/net/hydromatic/sml/compile/Compiler.java:75-87 | appends one line per binding in order, each run against the input environment, and adds every binding to the environment |
| SmlCompiler.Compiler.constructor | src/main/java/net/hydromatic/sml/compile/Compiler.java:314-323 | a new compiler has a fresh type system |
| SmlCompiler.Compiler.DeduceType | src/main/java/net/hydromatic/sml/compile/Compiler.java:91-107 | the method gives what `DeduceTypeOf` gives |
| SmlCompiler.Compiler.Compile | src/main/java/net/hydromatic/sml/compile/Compiler.java:189-289 | the method, with its `let` loop, gives what `CompileOf` gives |
| SmlCompiler.Compiler.CompileStatement | src/main/java/net/hydromatic/sml/compile/Compiler.java:50-89 | the method, with its loop over the map, gives what `CompileStatementOf` gives |
| SmlCompiler.SumHasTypeInt | src/main/java/net/hydromatic/sml/compile/Compiler.java:161-165 | `1 + 2` gets type int |
| SmlCompiler.BoolStatementReportsInt | src/main/java/net/hydromatic/sml/compile/Compiler.java:84 | a bare `true` compiles to a bool binding of `it`, yet its report line ends in `: int` |

## Left out

- Run-time semantics of `Codes`: code is a datatype without evaluation. `Eval` takes the code runner, the
  environment extension and the value printer as parameters.
- Floating point: real literals compile to a constant that keeps the literal's digits. The real-literal
  pattern is not modelled.
- The shell and REPL, `Environments.env` with its built-in and foreign values, and every `toString` other
  than the term printer.
- `Substitution.toString`'s ordering.
- Unification: `RobinsonUnifier` is not part of this model. In `deduceType` its `unify` call over the
  constraints is followed by an unconditional `AssertionError`, so the model returns that error directly.
- Unification takes fuel. The fuel bound is a modelling device: the source recurses without one. On some
  inputs the source's recursion never ends and always overflows the stack: `UnifyDiverges` shows that
  `[X, X]` against `[[X, X], [X, X]]` runs out of every amount of fuel.
- `Pair.zip` is not part of this model. It is taken to stop at the shorter list, which the explicit
  length check of the list pattern supports.
- Unifiers.Unifier.FreshVariable: the 32-bit `varId` counter is unbounded here.
- Unifiers.IsVariableNameIffUpper: upper case is ASCII only; `toLowerCase` outside ASCII is not modelled.
- EvalEnvs.MutableArraySubEvalEnv.Set: the source stores the caller's array, so later writes by the caller
  show through. The model copies the values, and the length assertion is a precondition.
- `EvalEnv.visit` and `valueMap`, and the `toString` built on them (`EvalEnvs.java:41-61`): the traversal
  that lists an environment's bindings is not modelled; lookup (`GetOpt`) is how the model reads an
  environment.
- EvalEnvs.MutablePatSubEvalEnv.BindRecurse: the "cannot compile" message omits the pattern's printed form.
- SmlCompiler.TypeResolver.DeduceExp: on an error the constraints appended so far and the counter are left
  unspecified.
- SmlCompiler.Compile: the FN case stops where `deduceType` throws, so function code is never produced.
  The environment argument of `compile` and `deduceType` is unused in the source and left out.
- Behaviour of the code that the model keeps as written:
  - the list form of `unify` takes exactly one pair;
  - pattern binding is not atomic;
  - tuple and record patterns ignore extra components;
  - the report line always ends in `: int`;
  - every binding of a statement runs against the input environment;
  - `deduceType` starts from an environment holding only `true` and `false`;
  - a name declared twice in one statement keeps its first position and its last code.

## Findings

| source | as written | input that shows it | evidently intended | confidence | as-written member | corrected member |
|---|---|---|---|---|---|---|
| src/main/java/net/hydromatic/sml/util/Unifier.java:46-52 | `apply` interns sequences by their printed form, and printing is not injective | `apply("p", atom X)` then `apply("p", variable X)` on one unifier returns `p(X)` with an atom argument | return an existing sequence only when its terms are the same | not executed | Unifiers.ApplyNamedCollision | Unifiers.ApplyStructuralKeepsApart |
| src/main/java/net/hydromatic/sml/compile/Compiler.java:340-345 | `fnType` interns by the description `p -> r`, written without parentheses | `fnType(int -> int, int)` then `fnType(int, int -> int)` returns the first type, whose parameter is `int -> int` | key the table by the parameter and result types | not executed | SmlCompiler.FnTypeCollision | SmlCompiler.FnTypeOfPairKeepsApart |
