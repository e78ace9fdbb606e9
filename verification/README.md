# Verified model of the Lullaby middle and back end

Lullaby programs are lowered to a small intermediate representation and run in several ways: a
tree-walking interpreter, a flat bytecode machine, and native AArch64 code written as an ELF object.
This project models that core in Dafny and proves that the pieces mean the same.

- **Reference meaning** (`Ir`, `Eval`, `EvalFacts`, `EvalMono`, `Words`): the representation and the
  tree-walker's meaning of it, with fuel, error codes and wrapping 64-bit arithmetic. `TreeWalker` is the
  tree-walker as it runs, changing one environment in place, proved to compute that meaning.
- **Environments** (`EnvStore`, `EnvFacts`, `EnvFrames`): scopes with ids that are never reused, located
  slots, pooled and shelved environments across nested calls.
- **Bytecode machine** (`Vm*`): the compiler with its back-patching, the dispatch loop, agreement with the
  tree-walker for whole modules, and the certificate that no run gets stuck.
- **Copy propagation** (`CopyProp*`), **move instead of clone** (`MoveUpdate`), **inline conditionals**
  (`CondLower*`): each as specification, as the class or method that works in place, and as theorems;
  `CondLowerWhole.PassesAgree` runs the passes one after the other.
- **AArch64 back end** (`A64*`, `ScalarMath`): instruction encodings and semantics (Arm Architecture
  Reference Manual DDI 0487, section C6.2; calling convention AAPCS64), the code generator, the
  demote-and-retry choice of functions, layout, linking, and `A64Object.FileExits` from source to exit
  status through the object file.
- **ELF** (`Elf*`): the ELF64 object writer with a reader for the System V gABI (chapter 4), and the
  direct executable writer with a loader (chapter 5).
- **Frame layout** (`Frame*`): slots and cleanup lists.

A method or class that works in place is tied by its `ensures` to a function, and the theorems are about
that function. Theorems about whole programs are by induction on the depth of calls (`Programs`); `prim`
stands for builtins, constructors and trait dispatch, as a function of the values it is given, and `taken`
for the names that the dispatcher asks it for before it looks for a user function
(crates/lullaby_ir/src/ir_interpreter.rs:474-745).

Arithmetic is that of the release profile. Operators wrap explicitly in the source; the range loop's
`current += step` (crates/lullaby_ir/src/ir_interpreter.rs:1227) and the compound assignments
(crates/lullaby_runtime/src/lib.rs:469-471) use plain operators, which wrap in release builds and stop
the program in debug builds.

## Findings

What the code or its comments promise and the code does not do. For each there is an input and the
condition under which the promise holds.

- **A `catch` can lose a value.** The fast path for `x = f(x, ..)` is meant to admit only builtins that
  cannot raise the catchable error, and its comment names `assert` as the only other one
  (crates/lullaby_ir/src/ir_interpreter.rs:215-234). Six builtins that it admits run or await user code
  and pass on what it throws: `list_map`, `list_filter`, `list_reduce`, `sort_by`, `parallel_map`,
  `task_join`. Input: `let x = [5]`, then `x = list_map(x, g)` in a `try` with `g` throwing
  (`MoveUpdate.MappingLosesValue`). Condition: no assignment hands its target to one of the six
  (`MoveUpdate.MovesChangeNothing`); every assignment refused has runs that differ
  (`MoveUpdate.RiskyLosesValue`). A `let` of that shape is harmless.
- **Copy propagation can keep a loop from ending.** A `while` condition is rewritten with the aliases from
  before the loop (crates/lullaby_ir/src/ir_optimizer_copyprop.rs:144-157). Input: `let i = n` and a loop
  counting `i` down (`CopyPropWhole.ConditionGoesStale`). Condition: the body assigns neither end of an
  alias that the condition uses (`CopyPropWhole.ProgramSame`); the two loops part at the first pass after
  which their conditions differ (`CopyPropWhole.LoopsPart`). The pass can also rewrite a loop bound into one
  that names the loop variable, and a function that gives 3 on both tiers into one that gives 3 and 7
  (`CopyPropWhole.RewritingBreaksFits`).
- **A region block in value position loses its value on the bytecode tier**
  (crates/lullaby_ir/src/bytecode_vm.rs:405-416 calls it value-neutral). Input: a body that is
  `region { 5 }` (`VmLimits.RegionInTail`). Condition: exactly the runs that leave by such a region with
  a value differ (`VmRegions.RegionTailExactly`); none do when its last statement is no expression
  (`VmTier.TiersAgree` admits these).
- **Range bounds that name the loop variable, and bodies that assign it,** run differently on the two tiers
  (`VmLimits.BoundNamesCounter`, `VmLimits.BodyAssignsCounter`); so does a right operand of `and` that is no
  boolean (`VmLimits.UncheckedOperand`; always so, `VmLimits.OperandPasses`). Condition:
  `VmStmts.BlockFits`, and no conversion error.
- **A conditional in a `while` or `if` condition breaks the statement:** what it hoists ends up inside the
  body. Input: `while (t if k else e)` with any non-empty body; the lowered loop fails at its first test
  (`CondLowerLimits.ConditionInBody`). In a right operand of `and` or `or` it is evaluated although the
  operand is not reached. Input: `false and (t if k else e)` where `k` fails
  (`CondLowerLimits.GuardIgnored`). Condition: `CondLowerBlocks.Lowerable`.
- **Hoisting can change which error is raised.** Input: any `a + (t if k else e)` where `a` and `k` both
  fail (`CondLowerLimits.OrderDecides`). Condition: nothing that can fail precedes a hoisted conditional
  in its expression (`CondLowerFacts.InOrder`, `CondLowerWhole.LoweredSame`).
- **A function with a builtin's name is called by native code and not by the interpreter.** The dispatcher
  matches builtins first (crates/lullaby_ir/src/ir_interpreter.rs:474-745), the native compiler the
  functions it compiles (crates/lullaby_ir/src/aarch64.rs:1058-1066), and nothing refuses such a
  declaration (crates/lullaby_semantics/src/lib.rs:2066-2075). Input: `fn pow a i64 b i64 -> i64` with body
  `a - b`, and a `main` that returns `pow(2, 5)`: 32 and -3 (`A64Limits.PowDiffers`). A call agrees exactly
  when the builtin's value is the body's (`A64Dispatch.ShadowDecides`). Condition: no compiled function
  calls such a name out of line (`A64Program.Callable`); the six inlined builtins are safe under any
  declaration.
- **A compiled function called `_start` is called as the entry stub,** which comes first in the symbol list
  (crates/lullaby_ir/src/aarch64.rs:1224-1246). Input: `fn _start` and a `main` that returns `_start()`
  (`A64Limits.StartLost`). Condition: there is no stub, or nothing calls `_start`; the linked words are the
  image's exactly then (`A64Object.FileLinks`).

## Model

| member | source | states |
|---|---|---|
| `EvalMono.BodyMono` | crates/lullaby_ir/src/ir_interpreter.rs:759-871 | An outcome reached with some fuel and some dispatcher is reached with more fuel, and with any dispatcher that agrees where it matters; outcomes do not depend on how far one looks. |
| `EvalFacts.StmtNames` | crates/lullaby_ir/src/ir_interpreter.rs:1089-1278 | Whatever a statement does and however it ends, outer scopes bind the names they bound and the innermost one loses none. |
| `EvalFacts.StmtKeeps` | crates/lullaby_ir/src/ir_interpreter.rs:1089-1278 | A binding that nothing in the statement assigns, and that no inner use can reach, keeps its value through any run. |
| `TreeWalker.Interpreter.EvalStatement` | crates/lullaby_ir/src/ir_interpreter.rs:1089-1278 | Run in place on the stored environment, every statement ends as the evaluator says and leaves the scopes it found: same environment id, same scope ids, same order, whether it falls through, returns, breaks, continues, fails or runs out of fuel. |
| `TreeWalker.Interpreter.EvalStatements` | crates/lullaby_ir/src/ir_interpreter.rs:1070-1087 | A statement list does so, and stops at the first statement that does not fall through. |
| `TreeWalker.Interpreter.EvalScopedBlock` | crates/lullaby_ir/src/ir_interpreter.rs:1280-1289 | The scope pushed is popped on every path, errors included. |
| `TreeWalker.Interpreter.DoTry` | crates/lullaby_ir/src/ir_interpreter.rs:1255-1272 | A handler runs in exactly the scopes its `try` was entered with; only the catchable code is caught. |
| `TreeWalker.Interpreter.DoFor` | crates/lullaby_ir/src/ir_interpreter.rs:1179-1230 | Bounds are evaluated before the loop variable's scope exists; that scope surrounds all passes and is popped however they end. |
| `TreeWalker.Interpreter.DoLoop` | crates/lullaby_ir/src/ir_interpreter.rs:1167-1178 | `while` and `loop`: the outcome of the evaluator's recursion, pass by pass. |
| `TreeWalker.Interpreter.EvalExpression` | crates/lullaby_ir/src/ir_interpreter.rs:1370-1536 | The expression evaluator computes the value or failure of the reference meaning and changes nothing. |
| `TreeWalker.Interpreter.EvalUpdated` | crates/lullaby_ir/src/ir_interpreter.rs:247-264 | The update of `x` with the fast path: value and scopes are those of the reference update. |
| `TreeWalker.Interpreter.MoveIntoCall` | crates/lullaby_ir/src/ir_interpreter.rs:266-332 | The call arm: other arguments first, so a failure there leaves `x` alone; then `x` is moved out. |
| `TreeWalker.Interpreter.MoveIntoLeft` | crates/lullaby_ir/src/ir_interpreter.rs:338-383 | The binary arm with `x` on the left. |
| `TreeWalker.Interpreter.FindTarget` | crates/lullaby_ir/src/ir_interpreter.rs:293-305 | Finds the position of the one bare occurrence of `x` among the arguments, or reports that there is none or a further mention. |
| `EnvStore.Env.Define` | crates/lullaby_ir/src/ir_env.rs:185-198 | Overwrites the innermost scope's entry of that name where it is, or appends one. |
| `EnvStore.Env.Assign` | crates/lullaby_ir/src/ir_env.rs:213-226 | Overwrites the nearest binding where it is; fails, changing nothing, if there is none. |
| `EnvStore.Env.MoveOutNearest` | crates/lullaby_ir/src/ir_env.rs:287-296 | Yields the nearest binding's value and leaves `Void` in its slot. |
| `EnvStore.Env.Reset` | crates/lullaby_ir/src/ir_env.rs:141-155 | One empty scope under a fresh id, whatever was there. |
| `EnvStore.Env.Locate` | crates/lullaby_ir/src/ir_env.rs:94-109 | The place of the nearest binding. |
| `EnvStore.Env.WriteAt` | crates/lullaby_ir/src/ir_env.rs:124-139 | A write through a place lands in that entry if its scope lives, and nowhere otherwise. |
| `EnvStore.Env.At` | crates/lullaby_ir/src/ir_env.rs:111-122 | The value at a place, while its scope lives. |
| `EnvStore.Env.GetSlot` | crates/lullaby_ir/src/ir_env.rs:256-267 | A binding by depth and position, if it carries the expected name. |
| `EnvFacts.ApplySound` | crates/lullaby_ir/src/ir_env.rs:82-198 | Every operation keeps scope ids increasing, below the next one, and names distinct within a scope; ids are never taken back. |
| `EnvFacts.ApplyMeaning` | crates/lullaby_ir/src/ir_env.rs:157-296 | Each operation on the entry lists is the evaluator's operation on the scopes they stand for. |
| `EnvFacts.PlaceIsNearest` | crates/lullaby_ir/src/ir_env.rs:237-246 | The backwards list search finds the binding lexical scoping prescribes. |
| `EnvFacts.PlaceStable` | crates/lullaby_ir/src/ir_env.rs:82-155 | Through any sequence of operations a place keeps naming the same binding while its scope lives, and resolves to nothing for ever after. |
| `EnvFacts.WriteThrough` | crates/lullaby_ir/src/ir_env.rs:124-139 | Writing through a freshly taken place is assigning to the name it was taken from. |
| `EnvFacts.ResetKills` | crates/lullaby_ir/src/ir_env.rs:141-155 | Resetting an environment for reuse kills every place taken in it before. |
| `EnvFrames.PerformAllOk` | crates/lullaby_ir/src/ir_interpreter.rs:430-472 | Whatever a body does, at any depth of calls, each caller gets its own environment back, with the same scopes. |
| `EnvFrames.CallerReachable` | crates/lullaby_ir/src/ir_interpreter.rs:430-472 | A place in a shelved caller resolves, under its name, at every moment of anything the callees do. |
| `EnvFrames.NoDanglingReads` | crates/lullaby_ir/src/ir_interpreter.rs:814-862 | A place located in a call's frame resolves to nothing after the call, even when its environment is reused from the pool. |
| `EnvFrames.GoneForever` | crates/lullaby_ir/src/ir_interpreter.rs:814-862 | A place once gone stays gone, through any further calls and reuse. |
| `VmExprs.MatchLookup` | crates/lullaby_ir/src/bytecode_vm.rs:197-204 | Slots refine scopes: a name resolves at run time exactly when it resolves at compile time, and its value is the one in its slot. |
| `VmSim.MatchDeclare` | crates/lullaby_ir/src/bytecode_vm.rs:179-189 | Declaring a name, also a second time in one scope, and storing its value keeps slots and scopes in step. |
| `VmSim.MatchUpdate` | crates/lullaby_ir/src/ir_interpreter.rs:1105-1121 | So does assigning to the nearest binding. |
| `VmExprs.SimExpr` | crates/lullaby_ir/src/bytecode_vm.rs:446-600 | The code of any expression pushes the value the tree-walker computes, or stops with its error. |
| `VmFlow.SimStmt` | crates/lullaby_ir/src/bytecode_vm.rs:234-443 | The code of any fitting statement takes the loop where the tree-walker's outcome says, with a frame that matches its scopes. |
| `VmFlow.SimBlock` | crates/lullaby_ir/src/bytecode_vm.rs:213-225 | The same for statement lists, in value position or not. |
| `VmFlow.SimFor` | crates/lullaby_ir/src/bytecode_vm.rs:326-387 | The same for range loops: bounds into slots, the guard, the passes, `break` and `continue` to their patched targets. |
| `VmFlow.CounterKept` | crates/lullaby_ir/src/ir_interpreter.rs:1215-1227 | A body that does not assign the loop variable leaves its slot holding the pass's value, so the slot can stand for the tree-walker's private counter. |
| `VmTier.EntryMatches` | crates/lullaby_ir/src/ir_interpreter.rs:891-894 | Parameters sit in the first slots; a repeated name is in its last one. |
| `VmTier.CompiledBodyAgrees` | crates/lullaby_ir/src/bytecode_vm.rs:138-161 | Compiler correctness for one body: if the tree-walker finishes it, with any fuel, the compiled code returns the same value or fails with the same error; if not, the machine is still running, or hangs in a call, after as many turns. Not claimed: runs that end in a conversion error. |
| `VmTier.TiersAgree` | crates/lullaby_ir/src/bytecode_vm.rs:138-161 | For every module whose compiled bodies meet `BlockFits`, every call gives the same on both tiers, to any depth of calls: the same value, the same error, or no result on either. Not claimed: runs that end in one of the three errors of a value conversion applied to a value of another type (`TypeFault`), which the semantic checker rules out. |
| `VmRegions.RegionTailExactly` | crates/lullaby_ir/src/bytecode_vm.rs:411-416 | Without the condition on region blocks in value position: the compiled code ends as the tree-walker does except that such a region's value becomes `Void`, so the tiers agree exactly on the runs that do not leave by one with a value. |
| `VmFlow.VoidBlock` | crates/lullaby_ir/src/ir_interpreter.rs:1247 | A block whose last statement is no expression yields `Void`; the static test that makes a final region harmless. |
| `VmLimits.RegionInTail` | crates/lullaby_ir/src/bytecode_vm.rs:411-416 | A body that fails the test, and what each tier makes of it. |
| `VmLimits.UncheckedOperand` | crates/lullaby_ir/src/ir_interpreter.rs:1377-1402 | The right operand of `and` is type-checked by the tree-walker only. |
| `VmLimits.OperandPasses` | crates/lullaby_ir/src/ir_interpreter.rs:1377-1402 | Every `and` or `or` that reaches a right operand that is no boolean: a conversion error on the tree-walker, that operand's value from the compiled code. |
| `VmLimits.BoundNamesCounter` | crates/lullaby_ir/src/bytecode_vm.rs:340-343 | A loop bound that names the loop variable reads different variables on the two tiers. |
| `VmLimits.BodyAssignsCounter` | crates/lullaby_ir/src/ir_interpreter.rs:986-990 | A body that assigns the loop variable steers the compiled loop and not the tree-walker's. |
| `VmSafety.CompiledNeverStuck` | crates/lullaby_ir/src/ir_interpreter.rs:912-994 | In every reachable state of compiled code the program counter is in range, the operand stack has the height certified for that instruction, zero at every statement boundary outside value position, and the frame has its size: no underflow can fire, on any arguments. |
| `VmSafety.CertifiedRun` | crates/lullaby_ir/src/ir_interpreter.rs:912-994 | Any code with a certificate keeps the certified stack heights in all runs. |
| `VmCompile.VmCompiler.CompileStmt` | crates/lullaby_ir/src/bytecode_vm.rs:234-443 | The compiler at work: pushes and back-patches produce the specified code once the sites noted on the innermost loop are patched, and refuse exactly what the specification refuses. |
| `VmCompile.VmCompiler.CompileExpr` | crates/lullaby_ir/src/bytecode_vm.rs:446-600 | Appends exactly the specified code or refuses exactly the same expressions. |
| `VmCompile.VmCompiler.PatchLoop` | crates/lullaby_ir/src/bytecode_vm.rs:309-325 | Patching a finished loop's break and continue sites fills in every open jump of its body and nothing else. |
| `VmCompile.VmCompiler.Resolve` | crates/lullaby_ir/src/bytecode_vm.rs:197-204 | Innermost scope first, newest binding first: lexical resolution. |
| `VmCompile.CompileFunctionToVm` | crates/lullaby_ir/src/bytecode_vm.rs:138-161 | The whole compiler yields the specified program, so every theorem about that program is about this one. |
| `VmRun.Machine.VmExec` | crates/lullaby_ir/src/ir_interpreter.rs:912-994 | One instruction does to stack, frame and control what the specified step does. |
| `VmRun.RunVm` | crates/lullaby_ir/src/ir_interpreter.rs:891-909 | The dispatch loop computes the specified run and never reaches a missing operand or slot. |
| `CopyPropPass.AliasMap.ResolveAlias` | crates/lullaby_ir/src/ir_optimizer_copyprop.rs:348-358 | The walk with its circle guard ends at the alias's final source. |
| `CopyPropPass.AliasMap.InvalidateAlias` | crates/lullaby_ir/src/ir_optimizer_copyprop.rs:360-369 | Drops the name and every alias that resolves to it, and no other. |
| `CopyPropPass.CopyPropagator.PropagateStatement` | crates/lullaby_ir/src/ir_optimizer_copyprop.rs:57-253 | The pass in place: rewritten statement, aliases afterwards and number of copies are the specified ones. |
| `CopyPropPass.CopyPropagator.PropagateFunction` | crates/lullaby_ir/src/ir_optimizer_copyprop.rs:36-44 | A function is rewritten as specified, and the counter grows by the copies found in it. |
| `CopyPropPass.CopyPropagator.PropagateExpr` | crates/lullaby_ir/src/ir_optimizer_copyprop.rs:255-344 | The rebuild and the counter. |
| `CopyPropFacts.FlatResolve` | crates/lullaby_ir/src/ir_optimizer_copyprop.rs:348-358 | In a flat map resolution takes at most one hop and never ends because of the guard. |
| `CopyPropFacts.AfterFlat` | crates/lullaby_ir/src/ir_optimizer_copyprop.rs:63-107 | Every statement leaves the map flat: no source is itself an alias. |
| `CopyPropFacts.AfterHolds` | crates/lullaby_ir/src/ir_optimizer_copyprop.rs:63-107 | After every statement that falls through, each alias equals its source in the scopes it left. |
| `CopyPropFacts.StmtSame` | crates/lullaby_ir/src/ir_optimizer_copyprop.rs:57-253 | A rewritten statement has the same outcome and the same final scopes, from any scopes in which the aliases hold. |
| `CopyPropFacts.BlockSame` | crates/lullaby_ir/src/ir_optimizer_copyprop.rs:46-55 | So has a rewritten block. |
| `CopyPropFacts.NothingCopied` | crates/lullaby_ir/src/ir_optimizer_copyprop.rs:255-270 | The pass reports zero copies exactly when it changed nothing. |
| `CopyPropWhole.ProgramSame` | crates/lullaby_ir/src/ir_optimizer_copyprop.rs:14-44 | Every call of the rewritten module gives the original's value, error or no result, provided no `while` condition uses an alias an end of which its body assigns. |
| `CopyPropWhole.OptimisedTierAgrees` | crates/lullaby_ir/src/ir_optimizer_copyprop.rs:14-44 | Optimise, compile, run: what the tree-walker makes of the original, no result included. |
| `CopyPropWhole.ConditionGoesStale` | crates/lullaby_ir/src/ir_optimizer_copyprop.rs:144-157 | A terminating loop whose rewritten condition never becomes false. |
| `CopyPropWhole.RewritingBreaksFits` | crates/lullaby_ir/src/ir_optimizer_copyprop.rs:158-178 | A function that both tiers run to 3 becomes one that the tree-walker runs to 3 and the compiled code to 7. |
| `CopyPropWhole.LoopsPart` | crates/lullaby_ir/src/ir_optimizer_copyprop.rs:144-157 | A loop and its rewriting go through the same passes while their conditions agree, and at the first pass after which these differ one ends and the other enters its body. |
| `MoveUpdate.UpdateEither` | crates/lullaby_ir/src/ir_interpreter.rs:247-383 | The fast path computes what the plain evaluation does; the scopes differ at most by the placeholder in `x`. |
| `MoveUpdate.WriteBack` | crates/lullaby_ir/src/ir_interpreter.rs:1096-1121 | The write-back hits the slot the value was moved out of. |
| `MoveUpdate.PlaceholderSeen` | crates/lullaby_ir/src/ir_interpreter.rs:1255-1272 | A `catch` sees the placeholder exactly when the update moved a value other than `Void` and its callee raised the catchable error. |
| `MoveUpdate.BlockAlike` | crates/lullaby_ir/src/ir_interpreter.rs:1089-1125 | With the fast path or without, any block has the same outcome, and the same scopes wherever execution can go on, under the static test that no assignment hands its own target to one of the six builtins that run user code. |
| `MoveUpdate.MovesChangeNothing` | crates/lullaby_ir/src/ir_interpreter.rs:222-383 | Every call of every module that passes the test gives the same with the fast path on and off, on both tiers. The only hypothesis on builtins is that no other one raises the catchable error. |
| `MoveUpdate.ShippedTiersAgree` | crates/lullaby_ir/src/ir_interpreter.rs:875-909 | `TiersAgree` for the tiers as shipped, with the fast path on: under `BlockFits` and the same test. |
| `MoveUpdate.RiskyLosesValue` | crates/lullaby_ir/src/ir_interpreter.rs:222-234 | The converse: for every assignment the test refuses, whenever the arguments evaluate and the builtin passes on a thrown error, the handler finds `Void` with the fast path and the variable's value without. |
| `MoveUpdate.MappingLosesValue` | crates/lullaby_ir/src/ir_interpreter_builtins.rs:1335-1345 | `list_map` over `[5]` with a throwing function, as the concrete case. |
| `CondLowerFacts.TempFresh` | crates/lullaby_ir/src/bytecode_vm.rs:2496-2498 | Temporaries are pairwise distinct and never a name a program can write. |
| `CondLowerFacts.ExprLowered` | crates/lullaby_ir/src/bytecode_vm.rs:2477-2540 | Hoisted statements followed by the residual expression: the same value or neither has one; only the pass's own temporaries change; any failure is one that lazy evaluation reaches, never an untaken branch's; and, where nothing that can fail precedes a hoisted conditional in the same expression (`InOrder`), the very same failure or absence of a result. |
| `CondLowerFacts.ChoiceLowered` | crates/lullaby_ir/src/bytecode_vm.rs:2504-2538 | The temporary and its `if`: only the branch taken is evaluated, and its failure stops the run. |
| `CondLowerBlocks.BlockLowered` | crates/lullaby_ir/src/bytecode_vm.rs:1022-1053 | Lowered blocks, by grade: success for success in general; the same outcome with errors and non-termination included when every expression is `InOrder`, conditionals inside `try` bodies admitted; identity where there is no conditional. |
| `CondLowerWhole.LoweredSame` | crates/lullaby_ir/src/bytecode_vm.rs:994-1053 | Whole programs: every call of the lowered module gives the original's value, error or no result, except for runs that end in an error the semantic checker rules out. |
| `CondLowerWhole.PassesAgree` | crates/lullaby_ir/src/bytecode_vm.rs:994-1053 | Lowering, then copy propagation, then compilation, run with the fast path on: what the source program does on the tree-walker, no result included. The static tests are of the program that runs, since a pass can make a text that fails them (`RewritingBreaksFits`). |
| `CondLowerLimits.OrderDecides` | crates/lullaby_ir/src/bytecode_vm.rs:2477-2540 | An operand that fails before a conditional whose condition fails: the original raises the operand's failure and the lowered code the condition's, for all such expressions and states. |
| `CondLowerLimits.ArgumentOrderDecides` | crates/lullaby_ir/src/bytecode_vm.rs:2477-2540 | The same for call arguments. |
| `CondLowerLimits.GuardIgnored` | crates/lullaby_ir/src/bytecode_vm.rs:2477-2540 | Every conditional in a right operand of `and` or `or` that is not reached and whose condition fails: the original has its value, the lowered code fails. |
| `CondLowerLimits.ConditionInBody` | crates/lullaby_ir/src/bytecode_vm.rs:1217-1241 | What a `while` condition hoists is drained by the first statement of the body: every such loop, also one that would end at once, fails with an unknown variable at its first test. |
| `CondLowerer.Lowerer.LowerCaptured` | crates/lullaby_ir/src/bytecode_vm.rs:2581-2594 | Takes back out of the shared buffer exactly what lowering the branch put in, leaving earlier entries in place. |
| `CondLowerer.Lowerer.DesugarConditional` | crates/lullaby_ir/src/bytecode_vm.rs:2477-2540 | The buffer after desugaring: the condition's prelude, the temporary, the `if` with each branch's own prelude inside it. |
| `CondLowerer.Lowerer.LowerStatement` | crates/lullaby_ir/src/bytecode_vm.rs:1142-1260 | Statement by statement, with what is still pending in the buffer. |
| `CondLowerer.Lowerer.LowerBlock` | crates/lullaby_ir/src/bytecode_vm.rs:1022-1053 | Each statement is preceded by everything pending when it has been lowered. |
| `A64Codec.DecodeEncode` | crates/lullaby_ir/src/aarch64.rs:76-236 | Every instruction with fields in range reads back from its 32-bit word: operation, registers and immediates. |
| `A64FnGen.FnGen.ResolveFixups` | crates/lullaby_ir/src/aarch64.rs:366-383 | Every branch word becomes the branch to its label's offset, and no other word changes. |
| `A64FnGen.PatchBlank` | crates/lullaby_ir/src/aarch64.rs:303-346 | Filling in the distance of a blank branch leaves operation and registers as they were. |
| `A64FnGen.FnGen.LoadImm` | crates/lullaby_ir/src/aarch64.rs:348-357 | Emits the specified move sequence. |
| `A64Idioms.LoadImmYields` | crates/lullaby_ir/src/aarch64.rs:348-357 | Any 64-bit constant is rebuilt exactly. |
| `A64Idioms.OpYields` | crates/lullaby_ir/src/aarch64.rs:904-954 | For every strict operator and all operands on which the interpreter has a value, the code leaves that value in `x0`. |
| `A64Idioms.UnaryYields` | crates/lullaby_ir/src/aarch64.rs:815-838 | The same for the unary operators. |
| `A64Idioms.RemainderValue` | crates/lullaby_ir/src/aarch64.rs:915-922 | Divide, then multiply and subtract, is the truncated remainder, `MIN % -1` included. |
| `A64Idioms.AbsRuns` | crates/lullaby_ir/src/aarch64.rs:961-965 | The sign-mask idiom is the wrapping magnitude, `MIN` included, in any pair of registers. |
| `A64Idioms.SignYields` | crates/lullaby_ir/src/ir_interpreter_builtins.rs:1789-1808 | The two conditional sets are the interpreter's sign. |
| `A64Idioms.PickYields` | crates/lullaby_ir/src/ir_interpreter_builtins.rs:1851-1877 | Compare and select is the interpreter's minimum and maximum. |
| `A64Idioms.ClampYields` | crates/lullaby_ir/src/ir_interpreter_builtins.rs:1760-1786 | Upper bound, then lower bound: the interpreter's clamp, also when the bounds are crossed. |
| `A64Idioms.EuclidRuns` | crates/lullaby_ir/src/aarch64.rs:1010-1035 | The unsigned loop ends, with the greatest common divisor of its two words. |
| `A64Idioms.GcdRuns` | crates/lullaby_ir/src/ir_interpreter_builtins.rs:1811-1822 | The inlined builtin computes the interpreter's `gcd` on all inputs. |
| `ScalarMath.GcdLoop` | crates/lullaby_runtime/src/runtime_int.rs:390-403 | The interpreter's loop computes that function. |
| `ScalarMath.GcdIsGreatest` | crates/lullaby_runtime/src/runtime_int.rs:390-403 | It divides both magnitudes, and every common divisor divides it. |
| `ScalarMath.GcdI64Is` | crates/lullaby_runtime/src/runtime_int.rs:390-403 | As an `i64` it is non-negative unless the only magnitude is 2^63, which comes out as `MIN`. |
| `A64SimExpr.SimExpr` | crates/lullaby_ir/src/aarch64.rs:800-900 | The code of any typed expression with a value leaves that value in `x0`, with stack, frame and locals as they were. |
| `A64Loops.RangeGuardRuns` | crates/lullaby_ir/src/aarch64.rs:752-778 | The loop guard lets the body run exactly when the interpreter does, for either sign of the step. |
| `A64SimFlow.SimStmt` | crates/lullaby_ir/src/aarch64.rs:552-669 | The code of any typed statement follows the interpreter: falls through, returns through the epilogue, or branches to the loop's end or step. |
| `A64SimFlow.SimFor` | crates/lullaby_ir/src/aarch64.rs:732-797 | Range loops, to any number of passes. |
| `A64Function.FunctionRuns` | crates/lullaby_ir/src/aarch64.rs:477-543 | Called with arguments in registers and an aligned stack, a generated function returns the interpreter's value in `x0`, with `sp`, `x29` and `x30` restored and the caller's stack untouched. |
| `A64Saved.ProgramSaves` | crates/lullaby_ir/src/aarch64.rs:477-1091 | Generated code never changes `x19` to `x28`, at any moment of any run from any state. |
| `A64Program.NativeAgrees` | crates/lullaby_ir/src/aarch64.rs:1058-1091 | Whenever the tree-walking tier finishes a compiled function with a value, its native code answers with that value, to any depth of calls, provided no compiled function calls, other than inlined, a name that the dispatcher takes before user functions (`Callable`). |
| `A64Dispatch.ShadowDecides` | crates/lullaby_ir/src/aarch64.rs:1058-1066 | A function compiled under a name the dispatcher takes: a call gives the interpreter the builtin's value and native code the body's; they agree exactly when these are equal. |
| `A64Dispatch.ProgramFollows` | crates/lullaby_ir/src/aarch64.rs:1058-1066 | What native code does for every compiled program, whatever its functions are called: the program read with user functions first. |
| `A64Limits.PowDiffers` | crates/lullaby_ir/src/aarch64.rs:1058-1066 | A user `pow` with body `a - b`: `pow(2, 5)` is 32 for the interpreter, and the native program exits with -3. |
| `A64Program.ImageLoaded` | crates/lullaby_ir/src/aarch64.rs:1194-1260 | The linked image has every function where its symbol says, calls resolved. |
| `A64Program.ProgramExits` | crates/lullaby_ir/src/aarch64.rs:1198-1208 | Started at the entry stub, a program whose `main` has a value reaches the exit call with it. |
| `A64FnGen.FnGen.LowerExpr` | crates/lullaby_ir/src/aarch64.rs:800-900 | The generator at work: succeeds exactly on the accepted expressions, emits the specified code, and leaves every new label bound. |
| `A64FnGen.FnGen.LowerStmt` | crates/lullaby_ir/src/aarch64.rs:552-797 | The same for statements, loop labels included. |
| `A64FnGen.LowerFunction` | crates/lullaby_ir/src/aarch64.rs:477-518 | A function lowers exactly when frame and body are in the subset; its words are the specified instructions, and the call sites are exactly the blank calls. |
| `A64Emit.FunctionMonotone` | crates/lullaby_ir/src/aarch64.rs:1058-1066 | A function that lowers against some callable functions lowers against more. |
| `A64Emit.Fixpoint` | crates/lullaby_ir/src/aarch64.rs:1105-1150 | The demote-and-retry loop ends; every declared function ends up in exactly one of compiled and skipped; the compiled ones are the greatest set of eligible functions that lower with calls into the set only. |
| `A64Emit.GreatestUnique` | crates/lullaby_ir/src/aarch64.rs:1117-1150 | There is only one such set, so the order of demotion does not matter. |
| `A64Emit.BuildText` | crates/lullaby_ir/src/aarch64.rs:1194-1222 | Padding, placement and relocations of the text section. |
| `A64Emit.Link` | crates/lullaby_ir/src/aarch64.rs:1247-1256 | Applying every call relocation gives the words of the linked image. |
| `A64Emit.EmitProgram` | crates/lullaby_ir/src/aarch64.rs:1101-1189 | An object is produced exactly when the greatest set has an entry point, and holds that set. |
| `A64Emit.EmittedExits` | crates/lullaby_ir/src/aarch64.rs:1101-1189 | From source to exit status on words: decoding and running the linked words reaches the exit call with the interpreter's value of `main`. |
| `A64Object.WordsRead` | crates/lullaby_ir/src/aarch64.rs:289-291 | Words written as little-endian bytes read back. |
| `A64Object.EmitObject` | crates/lullaby_ir/src/aarch64.rs:1101-1189 | The whole back end as one method: the file is the ELF object of a sound program of exactly the greatest set. |
| `A64Object.FileLinks` | crates/lullaby_ir/src/aarch64.rs:1194-1260 | Reading the object file back and applying its relocations gives the linked image, word for word, when there is no entry stub or no call of a compiled `_start`; and, within a branch's reach, only then. |
| `A64Limits.StartLost` | crates/lullaby_ir/src/aarch64.rs:1224-1246 | A `main` that calls a user function `_start` calls the stub. |
| `A64Object.FileExits` | crates/lullaby_ir/src/aarch64.rs:1101-1260 | From source to exit status through the file's bytes. |
| `ElfWriter.WriteElf64` | crates/lullaby_ir/src/elf_object.rs:196-516 | The writer's buffer is the specified file. |
| `ElfWriter.SortByBinding` | crates/lullaby_ir/src/elf_object.rs:230-242 | The stable sort by binding. |
| `ElfObject.OrderFacts` | crates/lullaby_ir/src/elf_object.rs:230-242 | Every symbol once, no global before a local, equal bindings in model order. |
| `ElfRoundTrip.ElfRoundTrips` | crates/lullaby_ir/src/elf_object.rs:196-516 | Parsing the written file by the System V gABI gives back every section's kind, bytes and size, every symbol's name, section and value in table order, and every relocation, for models that fit the fixed-width fields and have no NUL in a name. |
| `ElfRoundTrip.RelocNamesSymbol` | crates/lullaby_ir/src/elf_object.rs:293-312 | A relocation read back names the symbol it was made for. |
| `ElfBytes.AlignUp` | crates/lullaby_ir/src/elf_object.rs:530-535 | Rounds up, never down. |
| `ElfBytes.FieldReads` | crates/lullaby_ir/src/elf_object.rs:544-558 | A little-endian field reads back as the value written. |
| `ElfImage.WriteExecutable` | crates/lullaby_ir/src/elf_image.rs:151-342 | The writer accepts exactly the specified models and writes the specified image. |
| `ElfImage.ResolveText` | crates/lullaby_ir/src/elf_image.rs:262-285 | Relocations are resolved in order until one cannot be. |
| `ElfLoad.SegmentsPlaced` | crates/lullaby_ir/src/elf_image.rs:191-240 | Segments lie one after the other in memory, each congruent to its file offset modulo the page size. |
| `ElfLoad.MemoryHolds` | crates/lullaby_ir/src/elf_image.rs:294-341 | Loading the segments puts text, read-only data and zeroed data where their sections' addresses say. |
| `ElfLoad.FullyLinked` | crates/lullaby_ir/src/elf_image.rs:151-342 | When the writer accepts a model with non-overlapping fields: in loaded memory every relocated field at P holds S - (P + 4), every other byte of text and read-only data is the model's, the zeroed data is zero, and the header's entry is the entry symbol's address. |
| `FrameBuilder.AnalyzeFrame` | crates/lullaby_ir/src/frame_layout.rs:76-89 | The builder's layout is the specified one. |
| `FrameBuilder.LayoutBuilder.WalkBlock` | crates/lullaby_ir/src/frame_layout.rs:128-195 | Slots, scopes and names after walking a block. |
| `FrameFacts.SlotsConserved` | crates/lullaby_ir/src/frame_layout.rs:112-124 | One slot for each declaration in order; slots are disjoint, 8-aligned, inside a 16-aligned frame less than 16 bytes larger than the sum of their sizes. |
| `FrameFacts.CleanupConserved` | crates/lullaby_ir/src/frame_layout.rs:128-245 | The cleanup lists release every slot exactly once, at its own depth, last declared first, and every nested scope before those around it. |
| `FrameFacts.CleanupNames` | crates/lullaby_ir/src/frame_layout.rs:226-235 | The lists of names are those lists. |

## Left out

- TiersAgree: does not claim runs that end in a conversion error on a value of the wrong type, because the tiers check some operands at different moments; the semantic checker, which is not part of this model, rules such runs out.
- LoweredSame: does not claim runs that end in a conversion error, an unbound name or a missing field, because the residual expressions of programs the semantic checker refuses may be evaluated in another order.
- BlockLowered: under `Loose`, for expressions that are not `InOrder`, says only when the lowered code succeeds and with what; which of several failures is raised then depends on the order (`CondLowerLimits.OrderDecides`).
- NativeAgrees: claims nothing when the interpreter raises an error or does not end, because native code traps neither zero divisors nor zero steps.
- FunctionRuns: takes names to be unique in a function and distinct from the generator's own loop slots, as scope renaming leaves them; stack addresses are unbounded.
- FileLinks: its converse takes text sections within a branch's reach; a cross-linker's own choice of load address is not modelled.
- FileExits: text sections of a megabyte or more, whose branches may not reach.
- ElfRoundTrips: names of section symbols and types of undefined symbols, which the format does not keep.
- FullyLinked: models whose addresses exceed 64 bits, and overlapping relocation fields.
- RunVm: takes a bound on the number of turns; runs are claimed for every bound.
- Higher-order builtins: `prim` is one function of values, so user code they call is not run on a tier of its own.
- Source spans and tracebacks, with the compiler's table of spans beside its instructions: errors are compared by code and message.
- Raw pointers beyond located slots, arena regions, closures, async functions, trait dispatch, enums and `match`, characters, floats and the fixed-width integers.
- Assignment through indices and fields: no theorem here depends on it.
- Lowering of the surface syntax other than inline conditionals: type inference for builtins, the `?` and `match` desugarings, for-each; the temporaries' typed zeros are any literals.
- The other optimizer passes, the x86-64 and WebAssembly back ends, slot packing and artifact encoding.
- Frame layout's own statement type keeps what the analysis reads, declarations with their types and nested bodies; types matter through their sizes only.
- Reasons given for skipped functions and the wording of diagnostics.
- Whether Boolean and integer operands of an inlined builtin have the static type the generator tests is part of being well typed.
- Files, processes, sockets, clocks, randomness and threads: only what a call returns is seen.
