# A verified model of the SICP-JS register-machine simulator

This project models the register-machine simulator of `4.1_to_register.js`
in Dafny, together with the parts of its two drafts that the simulator
builds on. It proves what the simulator promises. The model covers:

- **Typed pointers.** Every host value is stored as a tag/payload pair over
  seven tags (`number`, `bool`, `string`, `ptr`, `pc`, `null`,
  `undefined`). `wrap_ptr` classifies an atom and `unwrap_ptr` strips the
  tag. Module `TypedPointers`.
- **The older draft's pointers.** The untyped `("ptr", n)` pointers of
  `5.3.js` are in `DraftPointers`. Its vectors, which accept a pointer or a
  raw index, are in `Values`.
- **Host data.** JavaScript pairs, lists, `is_equal` and `assoc` are in
  `HostData`. The native functions that operation tables bind, including
  `gc_ops` and `inc_ptr`, are in `HostOps`.
- **The assembler.** `extract_labels` builds the instruction list and the
  label table. `lookup_label`, `lookup_prim` and the register lookup
  resolve names. `make_execution_function` handles the seven instruction
  kinds. All of this is in `Assembler`; the controller-text writers
  (`assign`, `test`, `reg`, …) are in `Instructions`.
- **The machine.** The stack, the register table with its duplicate and
  unknown checks, operation tables, `make_machine`, `start`, the register
  accessors, and one fetch-execute step. Module `RegisterMachine`.
  Algebraic laws about steps and runs are in `MachineLaws`.
- **The heap routines.** These are the `pair`, `list` and
  `make_compound_function` controller routines and `install_parsetree`
  (`Heap`). A replay of the manual heap exercise of `test_cases_5_3.js` is
  in `HeapTest`.
- **The evaluator routines.** `is_tagged_list` and the `eval_dispatch`
  chain are in `Evaluator`. `lookup_name_value` and `assign_name_value` are
  in `Environment`. `flatten_controller_seqs` is in `ControllerSeqs`.
- **The syntax predicates of `5.4.js`** and its dispatch order are in
  `Syntax`.
- **The two test controllers of `test_cases_5_2.js`,** gcd and Fibonacci,
  are in `GcdMachine` and `FibMachine`. Shared facts about them are in
  `Controllers`.

## Modelling decisions

- **Registers.** Register contents are
  `Value = Data(Datum) | Code(k) | Vec(id) | Unassigned`.
  - `Data` is a host value.
  - `Code(k)` is the instruction suffix that starts at index `k`, which is
    what `label(...)` yields. The empty suffix is JavaScript `null`, written
    `Data(Null)`, so the machine halts exactly when `pc` holds `null`.
  - `Vec` is one of the six heap vectors.
  - `Unassigned` is the string `"*unassigned*"` that `make_register`
    starts with.
- **Drafts.** One assembler and one machine serve both drafts through a
  `Draft` parameter, `Typed` (`4.1_to_register.js`) or `Raw` (`5.3.js`).
  The parameter selects:
  - the built-in register table;
  - the calling convention: `primitive_function` either unwraps and wraps,
    or applies the function directly;
  - the vector index convention: `unwrap_ptr`, or pointer-or-raw-index;
  - the initial `free`: a `ptr` pointer to 0, or raw 0.
- **Branch test.** The machine branches on `Values.FlagHolds`. In the
  typed draft it reads a wrapped boolean `("bool", b)` as `b`; otherwise it
  uses host truthiness. The code as written tests host truthiness, so a
  wrapped `false` jumps; see "Findings".
- **Stack and tables.** The stack is a sequence, top first. The register
  table is a map. Operation tables are association lists searched
  first-match, exactly as `assoc` searches them. Built-in operations come
  first, so they shadow user operations of the same name.
- **Errors.** Every error the source raises is a constructor of
  `Errors.Error` carried in a `Result`. Errors raised while assembling or
  setting up are told apart from run-time ones by `Errors.IsSetupError`.
- **Heap routines.** The controller routines of `4.1_to_register.js` are
  modelled as pure functions over the heap vectors, following what their
  comments and label names describe. Their instruction lists contain
  slips, which the model does not reproduce:
  - At 4.1_to_register.js:136-137, `go_to` is passed to `assign` as a third
    argument and dropped. The model's `pair` returns to `continue`.
  - Bare strings as jump destinations are read as labels, and
    `go_to("continue")` (157) as the register. `make_branch` accepts only a
    `label(...)` destination, so as written these branches are "Bad BRANCH
    instruction" errors at assembly:
    - `branch("list_return")` (146);
    - `branch("lnv_env_loop")` and `branch("lnv_return_value")` (229, 232)
      in `lookup_name_value`;
    - `branch("anv_env_loop")`, `branch("anv_set_value")` and
      `branch("anv_assign_const")` (251, 254, 262) in `assign_name_value`.

    `Environment.ScanLoop`, `Environment.ScanCompare` and
    `Environment.AssignNameValue` follow the branches to those labels.
  - `perform(op(...), list(...))` at 133-134 is read as `perform(list(op(...), ...))`.
  - Multi-argument `test(op(...), …)` calls are read as
    `test(list(op(...), …))`. As written, `test` keeps only its first
    argument, a bare `op(...)` that is not an operation expression, so the
    instruction is a "Bad TEST instruction" error at assembly. These calls
    are:
    - the two-argument tests at 176, 228, 231, 250 and 253, and at
      5.4.js:57-73;
    - the three-argument `test(op("==="), reg("res"), constant(true))` at
      105, in `make_is_tagged_list_seq`. It is read as
      `test(list(op("==="), reg("res"), constant(true)))`, and that reading
      is what `Evaluator.TestHolds` folds into each tagged test of
      `eval_dispatch`.
  - The "rest frames" step (222, 244) reads `the_heads`. The model reads the
    spine cell's tail, as the comment says.
  - The `vector_set` at 263 lacks its index. The model writes the value
    cell that `anv_set_value` located.
  - `pair` and `list` are shadowed by the controller constants of the same
    name (125, 140). The routines are `Heap.AllocPair` and `Heap.BuildList`.
  - `is_tagged_list` (167) reads `the_heads`, but `install_parsetree`
    (473-474) writes the program into `prog_heads` and `prog_tails`, and
    the other syntax routines (197-215) read `prog_heads`. The model reads
    the vector the tree was installed into
    (`Evaluator.EvalDispatch41OnProgram`).
  - The lookup loop has no exit for an exhausted environment. The model
    reports `UnboundName` when the walk reaches the null pointer.
- **The syntax tests of `eval_dispatch` at 4.1_to_register.js:174-187.**
  - `is_self_evaluating` and `is_variable` are not defined in that file.
    They are read as applying to the expression that the `exp` pointer
    stands for, so a `ptr` pointer to a pair node satisfies neither.
  - `make_is_tagged_list_seq` calls `is_tagged_list` and branches on
    `res === true`. This is folded into the tagged tests of
    `Evaluator.TestHolds`.
- **`install_parsetree`** discards the root pointer that its helper
  returns. The model returns it, because for a pair tree it is always the
  pointer to cell 0.
- **Environments.** Environments on the heap are related to a reference
  environment of frames of `(name, value, assignable)` bindings. The
  relation is the predicate `Environment.EnvAt`. The walks carry a fuel
  bound so that a cyclic heap cannot make them diverge.

## Model

| member | source | states |
|---|---|---|
| TypedPointers.TagNameInjective | 4.1_to_register.js:3-9 | The seven tag strings are pairwise different, and each tag string names its tag back. |
| TypedPointers.Decode | 4.1_to_register.js:40-51 | A value decodes to a typed pointer exactly when `is_ptr` holds of it. |
| TypedPointers.DecodeEncode | 4.1_to_register.js:11-51 | Encoding a pointer with an atomic payload and decoding it gives the pointer back. Every decodable value re-encodes to itself. |
| TypedPointers.HasTagIsPtrAndTag | 4.1_to_register.js:53-79 | Each `is_*_ptr` predicate holds exactly of a well-formed typed pointer whose head is that tag's string. |
| TypedPointers.HasTagExactlyDecodedTag | 4.1_to_register.js:40-79 | A value carries a tag exactly when it decodes to a typed pointer with that tag, so no value carries two tags. |
| TypedPointers.MakePtrPtr | 4.1_to_register.js:11-13 | `make_ptr_ptr(i)` is a well-formed `ptr` pointer with payload `i`. |
| TypedPointers.MakeNullPtr | 4.1_to_register.js:15-17 | `make_null_ptr()` is a well-formed `null` pointer with payload `null`. |
| TypedPointers.MakeProgPtr | 4.1_to_register.js:19-21 | `make_prog_ptr(i)` carries `i` as its payload and decodes to a `pc` pointer when `i` is an atom. |
| TypedPointers.ElemType | 4.1_to_register.js:23-30 | `get_elem_type` fails with "Invalid typed elem" exactly when its argument is a pair. |
| TypedPointers.WrapPtr | 4.1_to_register.js:32-34 | `wrap_ptr` succeeds exactly on atoms and then yields a well-formed typed pointer. On a pair it fails with "Invalid typed elem". |
| TypedPointers.UnwrapPtr | 4.1_to_register.js:36-38 | `unwrap_ptr` succeeds exactly on pairs and returns the tail, so it succeeds on every typed pointer. On an atom it fails because the atom is not a pair. |
| TypedPointers.WrapUnwrap | 4.1_to_register.js:23-38 | `unwrap_ptr(wrap_ptr(x)) == x` for every atom. The tag is number, bool, string, null or undefined exactly according to the kind of `x`. `wrap_ptr` never produces a `ptr` or `pc` pointer. |
| TypedPointers.IsNumberPtrAsWrittenDiverges | 4.1_to_register.js:53-55 | The code as written accepts a pair that is not a typed pointer and fails on an atom; the intended predicate answers false on both. |
| TypedPointers.IsNumberPtrCorrected | 4.1_to_register.js:53-55 | On well-formed typed pointers the as-written test agrees with the corrected one. The corrected one holds of a wrapped atom exactly when the atom is a number. |
| DraftPointers.MakePtr | 5.3.js:573-575 | `make_ptr(n)` is a `"ptr"`-tagged pair. |
| DraftPointers.PtrAddress | 5.3.js:589-591 | The address of a pointer is its payload. |
| DraftPointers.IsNullPtrAsWrittenDiverges | 5.3.js:585-587 | The code as written calls a non-pointer pair a null pointer and fails on an atom. |
| DraftPointers.IsNullPtrCorrected | 5.3.js:585-587 | On pointers the as-written test agrees with the corrected one, and the corrected one holds exactly of `make_null_ptr()`. |
| DraftPointers.NullPointerClassification | 5.3.js:573-591 | `make_null_ptr()` satisfies both `is_ptr` and `is_null_ptr`. `make_ptr(n)` with non-null `n` is a pointer but not a null pointer. `ptr_address(make_ptr(n)) == n`. |
| HostData.List | 4.1_to_register.js:140-158 | A list is `null` exactly when it has no elements; otherwise it is a pair headed by the first element. |
| HostData.ElementsOfList | 4.1_to_register.js:111-120 | Reading the elements of a built list gives back the sequence it was built from. |
| HostData.ListOfElements | 4.1_to_register.js:111-120 | A proper list is rebuilt exactly from its elements. |
| HostData.IsEqualIsEquality | 5.3.js:2-7 | `is_equal` holds exactly of structurally equal values. |
| HostData.IsEqualReflexiveSymmetric | 5.3.js:2-7 | `is_equal` is reflexive and symmetric. |
| HostData.Assoc | 5.3.js:9-15 | `assoc` returns the first record whose key `is_equal`s the query, and returns nothing when no key matches. |
| HostData.AssocFirstMatch | 4.1_to_register.js:295-301 | With duplicate keys, `assoc` picks the earliest record holding the key. |
| HostOps.JsRem | test_cases_5_2.js:3 | JavaScript `%` truncates: the remainder has the dividend's sign and is smaller in magnitude than the divisor. |
| HostOps.JsRemIsRemainder | test_cases_5_2.js:3 | The truncated remainder differs from the dividend by a multiple of the divisor. |
| HostOps.ApplyHost | 5.3.js:593-604 | The comparison and gc helpers always return a boolean. `display` returns its argument. `<` succeeds exactly on two numbers or two strings, and on strings it is the lexicographic order. `-` succeeds exactly on two numbers; `%` does too, and it also needs a non-zero divisor. |
| HostOps.StrLessMeaning | test_cases_5_2.js:24 | The host `<` on strings holds exactly when the first string is a proper prefix of the second, or is lower at the first position where they differ. |
| HostOps.StrLessTotal | test_cases_5_2.js:24 | String `<` is irreflexive and asymmetric, and of two different strings one is below the other. |
| HostOps.StrLessTransitive | test_cases_5_2.js:24 | String `<` is transitive. |
| HostOps.GcOpsMeaning | 5.3.js:600-604 | `is_broken_heart` recognises exactly the string "broken_heart". `is_equal` of `gc_ops` is structural equality, hence symmetric and reflexive. `is_pointer_to_pair` is `is_ptr`. |
| HostOps.IncPtrIsSuccessor | test_cases_5_3.js:8-12 | `inc_ptr` moves a bare address, or the address inside a pointer, one slot forward and keeps the tag. |
| Values.AsDatum | 4.1_to_register.js:361-379 | A register's host value exists exactly for host data and for the unassigned marker. |
| Values.WrappedFalseIsTruthy | 4.1_to_register.js:662-669 | As written, a wrapped `false` in `flag` is truthy, so `branch` jumps; the corrected condition does not hold of it. |
| Values.FlagHoldsReadsBooleans | 4.1_to_register.js:662-669 | The corrected branch condition reads a wrapped or raw boolean as itself. In the raw draft it is host truthiness. |
| Values.IndexOf | 5.3.js:551-567 | Typed draft: a vector index is the numeric payload of a pointer. Raw draft: it is a raw number or the address of a `("ptr", n)` pointer. |
| Values.PointerAndAddressSameSlot | 5.3.js:551-591 | `make_ptr(n)` and raw `n` select the same slot. In the typed draft `make_ptr_ptr(n)` selects slot `n`. |
| Values.VectorRef | 4.1_to_register.js:868-870 | Reading succeeds exactly on a vector with a valid index. A hole reads as `undefined`, and a written cell reads as the value stored there. |
| Values.VectorSet | 4.1_to_register.js:872-874 | Writing succeeds exactly on a vector with a valid index. |
| Values.VectorSetThenRef | 5.3.js:551-567 | After `vector_set(v, i, x)`, reading `v` at any index that selects the same slot as `i` (a pointer or its raw address) gives `x`. Every other slot of every vector reads as before. |
| Instructions.WritersBuildLists | 4.1_to_register.js:622-845 | Each controller-text writer builds the list whose head is the instruction or expression tag, followed by its arguments. |
| Instructions.TypedConstantText | 4.1_to_register.js:803-805 | A typed `constant` writer succeeds exactly on atoms: its value is wrapped first, and a pair cannot be wrapped. |
| Assembler.Shift | 4.1_to_register.js:518-530 | Putting an instruction in front moves every label one instruction later and keeps its name. |
| Assembler.ExtractLabels | 4.1_to_register.js:518-530 | There are as many instructions as non-string entries and as many labels as string entries. Every label points to a suffix of the instruction list, possibly the empty one. |
| Assembler.ExtractLabelsPositions | 4.1_to_register.js:518-530 | The non-string entry at text position `p` is the instruction at index "number of instructions before `p`". The label at `p` maps to the suffix starting at that same index. |
| Assembler.ExtractLabelsSources | 4.1_to_register.js:518-530 | Every instruction comes from a non-string text entry, and every label entry from a string entry. |
| Assembler.ConsecutiveLabelsAlias | 4.1_to_register.js:518-530 | Labels with only labels between them map to the same instruction suffix. |
| Assembler.LookupLabel | 4.1_to_register.js:571-577 | Lookup fails with "Undefined label" exactly when no entry has the name; otherwise it returns the suffix of the first entry with that name. |
| Assembler.DuplicateLabelFirstWins | 4.1_to_register.js:567-577 | For a label that occurs several times, lookup returns the suffix after its first occurrence. |
| Assembler.EarlierLabelEntry | 4.1_to_register.js:518-530 | Every label entry counted before text position `p` names a string that occurs before `p`. |
| Assembler.LookupRegister | 4.1_to_register.js:440-445 | Register lookup succeeds exactly for an allocated name; otherwise it fails with "Unknown register". |
| Assembler.LookupPrim | 4.1_to_register.js:847-853 | Operation lookup returns the first entry with the name, and fails with "Unknown operation" exactly when there is none. |
| Assembler.MakePrimitiveExp | 4.1_to_register.js:765-781 | A resolved operand refers to a defined label or an allocated register. Anything but a `constant`, `label` or `reg` expression is an unknown expression type. |
| Assembler.MakeOperands | 4.1_to_register.js:819-829 | Every resolved operand refers to a defined label or an allocated register. |
| Assembler.IsOperationExp | 4.1_to_register.js:831-833 | An expression is an operation exactly when its head is an `op` expression; the test fails on an atom. |
| Assembler.MakeOperationExp | 4.1_to_register.js:819-829 | The resolved operands refer to defined labels and registers. An unknown operation name is an assembly error. |
| Assembler.MakeExecution | 4.1_to_register.js:579-597 | Each of the seven tags yields its own instruction kind, and any other tag is "Unknown instruction type". A branch to a non-label, a go_to to neither a label nor a register, and a test or perform that is not an operation are assembly errors, as is a save or restore of an unknown register. Every resolved instruction refers only to defined labels and allocated registers. |
| Assembler.MakeAll | 4.1_to_register.js:532-549 | Assembly succeeds exactly when every instruction does. The result is the instructions resolved one by one. A failure is the first instruction's error. |
| Assembler.Assemble | 4.1_to_register.js:509-549 | Assembly succeeds exactly when every instruction of the text resolves against the label table. The program is those resolutions in order, one per non-string entry, each well formed. A failure is the error of one of the instructions. |
| Assembler.AssembleByPosition | 4.1_to_register.js:509-530 | The non-string entry at text position `p` becomes the instruction whose index is the number of instructions before `p`. If that entry does not resolve, assembly fails. |
| Assembler.AssembleErrorSource | 4.1_to_register.js:509-530 | An assembly error is the error of resolving some non-string entry of the text. |
| Assembler.ResolvedInstrOk | 4.1_to_register.js:579-597 | An instruction whose labels are all defined and whose registers are all allocated is well formed for the machine. |
| Assembler.PrimitiveTextsResolve | 4.1_to_register.js:765-817 | `constant(v)` resolves to `v`. `label(x)` resolves to the label's suffix or fails as undefined. `reg(x)` resolves to the register or fails as unknown. |
| Assembler.OperandTextsResolve | 4.1_to_register.js:819-829 | A list of operand texts resolves to the list of their resolutions. |
| Assembler.OpAppTextResolves | 4.1_to_register.js:819-845 | `list(op(f), operands…)` resolves to the looked-up operation applied to the resolved operands. |
| Assembler.AssignTextResolves | 4.1_to_register.js:599-624 | `assign` into an unknown register is an assembly error. Otherwise it resolves to an assignment of the operation or simple expression. |
| Assembler.TestPerformTextsResolve | 4.1_to_register.js:631-654 | `test` and `perform` of an operation resolve to that operation. A condition or action that is not an operation is a bad TEST or PERFORM instruction. |
| Assembler.JumpTextsResolve | 4.1_to_register.js:656-708 | `branch` and `go_to` of a label resolve to the label's suffix or fail as undefined. `go_to` of a register resolves to that register or fails as unknown. |
| Assembler.StackTextsResolve | 4.1_to_register.js:710-742 | `save` and `restore` resolve to their register, or fail as an unknown register. |
| RegisterMachine.Push | 4.1_to_register.js:319-322 | A push puts the value on top and keeps the stack below it. |
| RegisterMachine.Pop | 4.1_to_register.js:324-333 | Popping fails with "Empty stack: POP" exactly on the empty stack. Otherwise it returns the top and the stack below it. |
| RegisterMachine.PopAfterPush | 4.1_to_register.js:316-359 | The stack is LIFO: a pop undoes the latest push and returns its value. |
| RegisterMachine.FreshNamesStep | 4.1_to_register.js:432-439 | A list of register names can be allocated after a first, fresh name exactly when the rest can be allocated on top of it. |
| RegisterMachine.AllocateRegisters | 4.1_to_register.js:432-439 | Allocation succeeds exactly when every name is new and no name repeats. Old registers are kept, new ones start unassigned, and nothing else appears. A name already present is "Multiply defined register". |
| RegisterMachine.EvaluatorRegistersAreBuiltin | 4.1_to_register.js:395-403 | In the typed draft, allocating "continue" or "val" fails as multiply defined. In the raw draft they are free. |
| RegisterMachine.TypedEvaluatorRegisters | 4.1_to_register.js:396-404 | The typed machine has `continue` and `val` among its built-in registers. |
| RegisterMachine.RawEvaluatorRegisters | 5.3.js:95-168 | The raw machine has neither `continue` nor `val` built in. |
| RegisterMachine.OpsTable | 4.1_to_register.js:422-468 | The operation table is the built-in operations followed by the user's, in order. |
| RegisterMachine.BuiltinOpsShadow | 4.1_to_register.js:880-885 | A user operation named "+" or "vector_set" is shadowed by the built-in one. |
| RegisterMachine.MakeMachine | 4.1_to_register.js:480-488 | A built machine is well formed, has an empty stack and one instruction per non-string text entry, and holds every requested register unassigned. A duplicate register name makes `make_machine` fail. When the names allocate, the machine is built exactly when the controller text assembles against the built-in and requested registers, and an assembly error is the error `make_machine` reports. |
| RegisterMachine.GetRegisterContents | 4.1_to_register.js:494-496 | Reading succeeds exactly for an existing register and returns its contents; otherwise it fails with "Unknown register". |
| RegisterMachine.SetRegisterContents | 4.1_to_register.js:498-501 | Writing changes exactly the named register; the stack and the heap are unchanged. An unknown name is an error. |
| RegisterMachine.OperandValue | 4.1_to_register.js:765-781 | A resolved operand always has a value. Any failure is not a setup error. |
| RegisterMachine.OperandValues | 4.1_to_register.js:819-829 | The operand values are the values of each operand, in order. A failure is the failure of one of them. |
| RegisterMachine.RawArgs | 5.3.js:545-547 | Raw-draft arguments are the register values as host data, one for one. |
| RegisterMachine.UnwrappedArgs | 4.1_to_register.js:855-860 | Typed-draft arguments are the registers' values with their tags stripped, one for one. |
| RegisterMachine.ApplyOp | 4.1_to_register.js:855-864 | Applying an operation never changes a register. Only `initialize_stack` changes the stack, and it empties it. Only `vector_set` changes the heap. A failure is never a setup error. |
| RegisterMachine.ApplyApp | 4.1_to_register.js:819-829 | The same frame conditions hold for an operation applied to its operands. |
| RegisterMachine.EvalExpr | 4.1_to_register.js:599-612 | The same frame conditions hold for a value expression. |
| RegisterMachine.NextPc | 4.1_to_register.js:626-629 | Advancing `pc` moves from suffix `k` to suffix `k + 1`. |
| RegisterMachine.AdvancePc | 4.1_to_register.js:626-629 | `advance_pc` replaces exactly `pc` by its next suffix. |
| RegisterMachine.Execute | 4.1_to_register.js:599-760 | Executing an instruction never adds or removes a register. |
| RegisterMachine.Step | 4.1_to_register.js:446-455 | The machine stops exactly when `pc` holds the empty instruction list. A step never adds or removes a register. |
| RegisterMachine.Exec | 4.1_to_register.js:446-455 | `execute` returns only when `pc` holds `null`: a halted run has `null` in `pc`. |
| RegisterMachine.Start | 4.1_to_register.js:456-460 | `start` sets `pc` to the whole instruction sequence and `free` to the draft's initial value: a `ptr` pointer to 0, or raw 0. Nothing else changes. |
| MachineLaws.ExecuteFrame | 4.1_to_register.js:599-760 | An instruction changes only its own target register and `pc`. The stack changes only for save, restore and `initialize_stack`; the heap changes only for `vector_set`. |
| MachineLaws.ExecuteAdvances | 4.1_to_register.js:599-646 | Every instruction other than a branch or go_to moves `pc` to the next suffix. |
| MachineLaws.ExecuteJumps | 4.1_to_register.js:656-708 | A branch jumps to its label when the flag holds and advances otherwise. A go_to sets `pc` to its label or to the register's contents and never advances. Neither touches the stack or the heap. |
| MachineLaws.ExecuteNoSetupError | 4.1_to_register.js:571-597 | On an assembled machine, an instruction never fails with an assembly or setup error. |
| MachineLaws.StepKeepsWellFormed | 4.1_to_register.js:446-455 | A step of a well-formed machine leaves it well formed. |
| MachineLaws.StepNoSetupError | 4.1_to_register.js:446-455 | A fault of a well-formed machine is never an assembly or setup error. |
| MachineLaws.ExecNoSetupError | 4.1_to_register.js:446-455 | A run of any length never fails with an assembly or setup error, and the machine stays well formed. |
| MachineLaws.ExecCompose | 4.1_to_register.js:446-455 | Running `a + b` steps is running `a` steps and then resuming for `b`. |
| MachineLaws.ExecHalts | 4.1_to_register.js:446-455 | A halted run has `null` in `pc`. A run that has stopped stays stopped whatever fuel is added. |
| MachineLaws.ExecStep | 4.1_to_register.js:446-455 | When a step moves on, running `n + 1` steps is running `n` steps from the next state. |
| MachineLaws.ExecSplit | 4.1_to_register.js:446-455 | When the machine is still running after `a` steps, running `a + b` steps is running `b` more from that state. |
| MachineLaws.SaveThenRestore | 4.1_to_register.js:710-730 | `save r` then `restore q` copies `r` into `q` and returns the stack to its prior depth and contents. |
| MachineLaws.StackQuietKeepsStack | 4.1_to_register.js:446-455 | A run through instructions other than save, restore and `initialize_stack` keeps running and leaves the stack as it was. |
| MachineLaws.SaveRestoreAcross | 4.1_to_register.js:710-730 | `save r`, then any run of instructions that leave the stack alone, then `restore q`: `q` receives the saved contents of `r`, the stack is back to its state before the save, and the other registers and the heap are as the intermediate run left them. |
| MachineLaws.StepAssign | 4.1_to_register.js:599-612 | An assign step stores the expression's value in its register and advances `pc`. |
| MachineLaws.StepTest | 4.1_to_register.js:631-646 | A test step stores the condition's value in `flag` and advances `pc`. |
| MachineLaws.StepBranch | 4.1_to_register.js:656-676 | A branch step jumps to its label when the flag holds and advances otherwise. |
| MachineLaws.StepGotoLabel | 4.1_to_register.js:686-691 | A go_to to a label sets `pc` to the label's suffix. |
| MachineLaws.StepGotoReg | 4.1_to_register.js:693-695 | A go_to to a register sets `pc` to that register's contents. |
| MachineLaws.StepSave | 4.1_to_register.js:710-719 | A save step pushes the register's contents and advances `pc`. |
| MachineLaws.StepRestore | 4.1_to_register.js:721-730 | A restore step pops into its register and advances `pc`. |
| MachineLaws.StepPerform | 4.1_to_register.js:744-754 | A perform step keeps the action's effect on the state and advances `pc`. |
| MachineLaws.RawApplyOne | 5.3.js:545-547 | In the raw draft, a one-argument primitive is the native function applied to the operand's value. |
| MachineLaws.RawApplyTwo | 5.3.js:545-547 | In the raw draft, a two-argument primitive is the native function applied to the operands' values. |
| Heap.AllocPair | 4.1_to_register.js:125-138 | When `free` equals `SIZE`, control goes to garbage collection. Otherwise `heads[free] := a` and `tails[free] := b`, `res` is the old `free`, `free` grows by one, and no other vector changes. |
| Heap.AllocPairIsTwoVectorSets | 4.1_to_register.js:872-874 | The allocation is two `vector_set`s at `free`. Both cells read back, and every other cell of every vector is unchanged. |
| Heap.ListLoopOutcome | 4.1_to_register.js:140-158 | The `list` loop runs out of stack only when fewer than `c` values are saved, and triggers collection only when the heap fills. Otherwise it completes, consuming exactly `c` stack entries and `c` cells. |
| Heap.ListLoopFrame | 4.1_to_register.js:140-158 | The `list` loop changes no cell outside the `c` cells it allocates. |
| Heap.ListLoopLayout | 4.1_to_register.js:140-158 | The built list starts at the last allocated cell, and each cell links to the one allocated before it. |
| Heap.BuildList | 4.1_to_register.js:140-158 | `list` runs out of stack exactly when fewer than `count` values are saved, and triggers collection only when the heap fills. With enough stack and heap it succeeds, uses `count` cells and pops `count` values. |
| Heap.BuildListReadsBack | 4.1_to_register.js:140-158 | With enough stack and heap, `list` of `count` saved values builds a proper list of them in reverse stack order. |
| Heap.MakeCompoundFunction | 4.1_to_register.js:271-285 | `make_compound_function` restores the stack, uses three cells, and can only fail by triggering collection. |
| Heap.CompoundFunctionReadsBack | 4.1_to_register.js:271-285 | The function object is the three-element list of parameters, program pointer to the body, and environment. |
| Heap.Install | 4.1_to_register.js:887-902 | Installing uses one cell per pair node. An atom is stored wrapped; a pair is a `ptr` pointer to its first cell. |
| Heap.InstallCovers | 4.1_to_register.js:887-902 | Every cell in the installed range is written. |
| Heap.InstallFrame | 4.1_to_register.js:887-902 | No cell outside the installed range changes. |
| Heap.InstallParsetree | 4.1_to_register.js:887-902 | `install_parsetree` starts at cell 0 and leaves the next free cell at the number of pair nodes. The root of a pair tree is a pointer to cell 0. |
| Heap.InstallRebuilds | 4.1_to_register.js:887-902 | Decoding the heads and tails from the root pointer rebuilds the tree. This holds in any heap that agrees on the installed cells. |
| Heap.InstallPreorder | 4.1_to_register.js:887-902 | Cell `free + k` holds the `k`-th pair node of the tree in preorder. |
| Heap.InstallRootKind | 4.1_to_register.js:890-898 | The root is a typed pointer, and it is a `ptr` pointer exactly when the tree is a pair. |
| Heap.InstallChildrenFollow | 4.1_to_register.js:887-902 | Every child pointer stored in a cell points to a later cell inside the installed range. |
| Heap.InstallRoundTrip | 4.1_to_register.js:887-902 | Decoding the installed vectors from the root gives back the tree. |
| Heap.InstallAgreesWithResult | 4.1_to_register.js:887-902 | The vectors that `Install` returns satisfy the agreement condition under which the decoding lemmas read the tree back. |
| Heap.InstallParsetreeCells | 4.1_to_register.js:887-902 | The written cells are exactly indices 0 up to the number of pair nodes. |
| Heap.InstallParsetreeRoundTrip | 4.1_to_register.js:887-902 | Decoding `install_parsetree`'s vectors from cell 0 rebuilds the parse tree. |
| HeapTest.ReplayLinksCells | test_cases_5_3.js:5-19 | From any raw start address `n`, the exercise displays `n`, `n + 1`, `n + 1` and 5. Afterwards `tails[a] = b` and `heads[b] = 5`, the first cell's head keeps 1, and `free` holds `n + 2`. |
| HeapTest.ReplayFromStart | test_cases_5_3.js:5-23 | From `start`'s raw `free` of 0, the exercise displays 0, 1, 1 and 5. |
| ControllerSeqs.Append | 4.1_to_register.js:111-120 | Appending to a proper list conses its elements onto the second list. Appending to an improper list fails. |
| ControllerSeqs.ListOntoList | 4.1_to_register.js:111-120 | Consing elements onto a proper list is the list of both sequences concatenated. |
| ControllerSeqs.FlattenMeetsSpec | 4.1_to_register.js:111-120 | When the controller list and every marked body are proper lists, the result is the list of each element's contribution concatenated in order. A marked body contributes its elements; any other element contributes itself. Otherwise the function fails. |
| ControllerSeqs.Flatten | 4.1_to_register.js:111-120 | The result is always a list cell or `null`. The only failure is an atom where a list was expected. |
| ControllerSeqs.FlattenFlat | 4.1_to_register.js:111-120 | A controller list without marked elements is returned unchanged. |
| Syntax.IsSelfEvaluating | 5.4.js:2-4 | A self-evaluating value is not a pair, a string or `null`. |
| Syntax.IsVariable | 5.4.js:6-8 | A variable is neither self-evaluating nor a pair. |
| Errors.IsTaggedList | 4.1_to_register.js:303-305 | `is_tagged_list(exp, tag)` holds exactly when `exp` has a head and that head is the string `tag`. |
| Syntax.SelfEvaluatingAndVariableDisjoint | 5.4.js:2-8 | No input is both self-evaluating and a variable. A variable is exactly a string. Strings, `null` and pairs are not self-evaluating. |
| Syntax.TaggedPredicatesExclusive | 5.4.js:10-43 | A tagged predicate holds exactly of a pair headed by its tag. Predicates with different tags never both hold, and neither a self-evaluating value nor a variable satisfies one. |
| Syntax.FirstMatchSpec | 5.4.js:55-76 | The dispatch chain branches to entry `i` when test `i` holds and no earlier test does. |
| Syntax.FirstMatchFallsThrough | 5.4.js:55-76 | When no test holds, the chain reaches `unknown_expression_type`. |
| Syntax.FirstMatchFound | 5.4.js:55-76 | Any label other than `unknown_expression_type` is the label of a test that holds. |
| Syntax.FirstHolding | 5.4.js:55-76 | The first holding test is found: every earlier test fails. |
| Syntax.EvalDispatch54IsFirstMatch | 5.4.js:55-76 | `eval_dispatch` branches to the first of self-evaluating, variable, quoted, assignment, definition, conditional, function expression, block and application that holds. It reaches `unknown_expression_type` exactly when none holds. |
| Syntax.EvalDispatch54 | 5.4.js:55-76 | For every entry of the dispatch order, `eval_dispatch` reaches that entry's label exactly when its test holds: the tests exclude each other, so their order does not change the outcome. |
| Syntax.DispatchOnTag | 5.4.js:55-76 | For a pair headed by a string, `eval_dispatch` picks the first test that holds, and reaches `unknown_expression_type` exactly when none does. |
| Evaluator.Ref | 4.1_to_register.js:868-870 | Reading a cell through a `ptr` pointer gives the cell's stored value. |
| Evaluator.RefIsVectorRef | 4.1_to_register.js:868-870 | The routines' cell read is the machine's `vector_ref` on whichever heap vector is read. |
| Evaluator.StrictEquals | 4.1_to_register.js:166-168 | Typed `===` compares payloads, and fails when given something other than a typed value. |
| Evaluator.StrictEqualsWrapped | 4.1_to_register.js:166-168 | Two wrapped atoms are `===` exactly when the atoms are equal. A heap pointer is never `===` a wrapped tag. |
| Evaluator.IsTaggedListRoutine | 4.1_to_register.js:160-171 | The routine answers false for anything but a `ptr` pointer. A true answer means that the pointed-to cell's head has the tag's payload. |
| Evaluator.TaggedListOnInstalledTree | 4.1_to_register.js:160-171 | On an installed tree, the routine answers exactly `is_tagged_list` of the tree. |
| Evaluator.TestHolds | 4.1_to_register.js:174-187 | The self-evaluating and variable tests never fail, and never hold of a heap pointer. |
| Evaluator.Dispatch | 4.1_to_register.js:174-187 | A label other than `unknown_expression_type` is one of the chain's labels. |
| Evaluator.EvalDispatch41 | 4.1_to_register.js:174-187 | The same holds for the typed `eval_dispatch` order. |
| Evaluator.TestHoldsOnInstalledTree | 4.1_to_register.js:174-187 | On an installed tree each heap test answers the syntax predicate of the tree itself. |
| Evaluator.DispatchOnInstalledTree | 4.1_to_register.js:174-187 | On an installed tree the heap dispatch picks the first test that holds of the tree itself. |
| Evaluator.DispatchOnTree | 4.1_to_register.js:174-187 | The same holds in the vectors that `Install` returns. |
| Evaluator.EvalDispatch41OnParsetree | 4.1_to_register.js:174-187 | After `install_parsetree`, `eval_dispatch` on the root picks the first test in its order that holds of the parse tree. |
| Evaluator.EvalDispatch41OnProgram | 4.1_to_register.js:160-187 | After a parse tree is installed into `prog_heads` and `prog_tails`, `eval_dispatch` reading those vectors picks the first test in its order that holds of the tree. |
| Environment.FrameIndex | 4.1_to_register.js:226-236 | The scan finds the first position in the frame whose name matches, or reports that no name matches. |
| Environment.EnvLoopFailures | 4.1_to_register.js:220-240 | The environment walk fails only as unbound, out of fuel, or on a malformed heap (a bad index or operand, or an atom where a pair is needed). |
| Environment.ScanLoopFailures | 4.1_to_register.js:226-236 | The frame scan fails only in the same ways. |
| Environment.ScanCompareFailures | 4.1_to_register.js:229-234 | The name comparison step of the scan fails only in the same ways. |
| Environment.LookupNameValue | 4.1_to_register.js:220-240 | `lookup_name_value` fails only in the walk's ways. In the empty environment every name is unbound. |
| Environment.AssignNameValue | 4.1_to_register.js:242-269 | `assign_name_value` fails only in the walk's ways or as an assignment to a constant. On success the new heads vector is the old one with one cell set to the value. In the empty environment every name is unbound. |
| Environment.Find | 4.1_to_register.js:220-236 | Lookup searches the innermost frame first. It finds the first frame that binds the name, at the first binding there, or reports that none does. |
| Environment.LookupRef | 4.1_to_register.js:220-240 | Reference lookup fails, as unbound, exactly when no frame binds the name. |
| Environment.AssignRef | 4.1_to_register.js:242-269 | Reference assignment fails as unbound when no frame binds the name, and keeps the number of frames. |
| Environment.AssignThenLookupRef | 4.1_to_register.js:242-269 | After a successful assignment, looking the name up gives the assigned value. |
| Environment.FindAfterUpdate | 4.1_to_register.js:242-269 | Changing a binding's value does not change where any name is found. |
| Environment.ScanFindsBound | 4.1_to_register.js:226-236 | Walking a frame's name and value lists in step reaches the value cell that is aligned with the first matching name. |
| Environment.ScanPasses | 4.1_to_register.js:226-236 | A frame that does not bind the name is walked to its end, and the walk moves on to the rest frames. |
| Environment.FrameFinds | 4.1_to_register.js:220-236 | When the first frame binds the name, the environment walk returns the matching value cell. |
| Environment.EnvSkip | 4.1_to_register.js:220-236 | A frame without the name is skipped, and the walk continues at the rest of the environment. |
| Environment.EnvFinds | 4.1_to_register.js:220-240 | The heap walk returns the value cell of the innermost binding, or fails as unbound when no frame binds the name. |
| Environment.ExpectedSkips | 4.1_to_register.js:220-236 | The expected outcome is unchanged by dropping a first frame that lacks the name. |
| Environment.FoundCellIsFind | 4.1_to_register.js:220-240 | The value cell the heap walk should find is the cell of the binding that the reference lookup finds. |
| Environment.LookupMatchesReference | 4.1_to_register.js:220-240 | `lookup_name_value` on a heap environment returns what reference lookup returns: the innermost binding's value, or unbound. |
| Environment.BindingsAtCells | 4.1_to_register.js:226-240 | Each binding's value cell holds its value and its mutability flag. |
| Environment.EnvAtCells | 4.1_to_register.js:220-240 | In a heap environment, every binding's value cell holds its value and its mutability flag. |
| Environment.EnvAtShaped | 4.1_to_register.js:220-240 | A heap environment has one cell record per frame and per binding. |
| Environment.BindingsAtKept | 4.1_to_register.js:258-263 | Writing a value cell outside a frame's list structure keeps the frame laid out, with the value of the binding whose cell was written replaced. |
| Environment.EnvAtKept | 4.1_to_register.js:258-263 | Writing a value cell outside an environment's list structure keeps the environment laid out, with the written binding's value replaced. |
| Environment.SetEnvIsUpdate | 4.1_to_register.js:242-269 | When no two cells are shared, writing binding `(i, j)`'s cell updates exactly that binding of the reference environment. |
| Environment.AssignMatchesReference | 4.1_to_register.js:242-269 | `assign_name_value` succeeds exactly when reference assignment does, and fails with the same error otherwise: unbound name, or "no assignment to constants allowed" for a binding whose flag is false. On success the heap holds the updated reference environment. |
| Controllers.UserOpFound | 4.1_to_register.js:847-853 | A user operation whose name is not built in is found by lookup. |
| GcdMachine.GcdAssembles | test_cases_5_2.js:1-15 | The gcd controller assembles, under the raw draft, to its seven instructions. The machine starts with an empty stack. |
| GcdMachine.GcdOf | test_cases_5_2.js:7-12 | Euclid's loop with JavaScript `%` gives zero exactly when both inputs are zero. |
| GcdMachine.GcdOfIsGcd | test_cases_5_2.js:7-12 | Euclid's loop with JavaScript `%` computes the greatest common divisor of non-negative inputs. |
| GcdMachine.GcdOfTestInputs | test_cases_5_2.js:18-19 | The gcd of the script's inputs 100 and 90 is 10. |
| GcdMachine.GcdRuns | test_cases_5_2.js:6-14 | From `test-b` with numbers in `a` and `b`, the machine halts with their gcd in `a`. |
| GcdMachine.GcdComputes | test_cases_5_2.js:1-20 | Made, loaded with `a`, `b` and started, the gcd machine halts with the gcd in `a`. |
| GcdMachine.GcdTestScript | test_cases_5_2.js:17-20 | Started with `a = 100` and `b = 90`, the machine halts with 10 in `a`. |
| FibMachine.FibAssembles | test_cases_5_2.js:22-61 | The Fibonacci controller assembles, under the raw draft, to its instruction sequence. The machine starts with an empty stack. |
| FibMachine.FibCall | test_cases_5_2.js:30-58 | A call at `fib-loop` with `x` in `n` returns to the saved continuation. Afterwards `val` holds Fib(`x`), the stack is as before, and the other registers are as the controller leaves them. |
| FibMachine.FibFromStart | test_cases_5_2.js:28-60 | From the first instruction with a number `x` in `n`, the machine halts with Fib(`x`) in `val`. |
| FibMachine.FibComputes | test_cases_5_2.js:22-65 | Made, loaded with any number and started, the Fibonacci machine halts with Fib of it in `val`. |
| FibMachine.FibTestScript | test_cases_5_2.js:63-65 | Started with `n = 10`, the machine halts with 55 in `val`. |

## Left out

- **The garbage collector.** `begin_garbage_collection` is referenced but never written. The gc registers and `gc_ops` have no controller. Only the trigger is modelled (`Heap.AllocPair` returns `GcTriggered`), and `gc_ops` only as native functions.
- **The missing evaluator handlers.** `ev_constant_declaration`, `ev_if`, `ev_application`, `unknown_expression_type` and `error` are referenced but absent, so whole-evaluator results are not derivable. The dispatch stops at the label it would branch to.
- **The register glue of `ev_self_eval`, `ev_name` and `ev_lambda`** (4.1_to_register.js:189-218). It only moves registers around the modelled lookup and `make_compound_function` routines.
- **The evaluator test scripts.** `test_4.1_to_register.js` and `__tests__/*` use names the repository never defines (`registers`, `ops`, `controller`, `make_evaluator_machine`).
- **The machine-level run of the heap exercise.** Its operation list does not provide `inc_ptr`, and neither draft's built-in operations do, so assembling that text reports an unknown operation. The exercise is replayed on the vectors directly (`HeapTest.Replay`).
- **Output.** `display` returns its argument, and nothing is printed.
- **Foreign functions.** `parse` and `apply_in_underlying_javascript` are not modelled: native functions are the finite enumeration `HostOps.HostFn`.
- **Floating point and JavaScript coercions.** Numbers are unbounded integers. `%` is truncated remainder. `+` on two strings concatenates. Other mixed-type arithmetic is an error instead of a coerced value.
- **Pair identity.** Host `===` on pairs is reference identity in JavaScript. The model compares structurally, since host values carry no addresses.
- **Non-numeric vector indices.** JavaScript would use them as property names; the model reports `BadIndex`.
- **Message-passing dispatch.** Registers, stacks and machines are closures answering messages in the source; the model uses records. The "Unknown request" errors of those closures cannot arise in the model.
- **The unused operation list of 5.4.js:45-53.** It is never bound to a name.
- Environment.EnvFinds: the heap walks carry a fuel bound. With fuel at least `EnvCost(env)` the walk equals the reference result; with less fuel the walk stops with `OutOfFuel`, which the source cannot do.
- Heap.InstallRebuilds: decoding carries a fuel bound, which must exceed the tree's depth.
- GcdMachine.GcdRuns: the number of steps is the model's `GcdSteps`. FibMachine.FibComputes only states that some number of steps suffices.
- HostOps.ApplyHost: `%` by zero is `BadOperand`, where JavaScript gives `NaN`. `<` between a number and a string is `BadOperand` rather than a coerced comparison. String `<` compares characters as Unicode scalar values, which differs from JavaScript's UTF-16 code-unit order only for characters outside the Basic Multilingual Plane.
- Heap.AllocPair: `free` advances by one slot as a `ptr` pointer, so the model assumes an `inc_ptr` operation that adds one to a pointer's address and keeps the `ptr` tag. 4.1_to_register.js:136 calls `op("inc_ptr")`, but neither the built-in operations (422-423, 880-885) nor any operation list of that file defines it. A host function under the typed calling convention would also re-wrap its result as a `number`, not a `ptr` pointer. The full-heap test `free === SIZE` (129) is read as comparing the address in `free` with `SIZE`, which is what `===` does on unwrapped operands; `===` itself is not registered either (see `Evaluator.StrictEquals`). Compared as whole pointers, a fresh pointer pair is never identical to another value, and collection would never be triggered.
- Evaluator.StrictEquals: `===` (used at 129, 145, 168, 231, 253 and 261) is not among the registered operations, which are only `initialize_stack` and the vector operations (4.1_to_register.js:422-423, 880-885). The model gives it the unwrapping convention of `primitive_function` (855-860): both operands are typed values whose payloads are compared. An operand that is not a typed value is an error, not JavaScript's identity comparison.
- Evaluator.IsTaggedListRoutine: `is_ptr_ptr` (162) and `===` (168) are not registered operations. The model applies `is_ptr_ptr` to the whole typed value, as `ptr_aware_function` (862-864) would. Under `primitive_function`, the operand would be unwrapped first, `is_ptr_ptr` would never hold, and the routine would always answer false. `===` follows `Evaluator.StrictEquals`.
- Heap.BuildList: `make_null_ptr` (143), `===` (145) and `-` (154) are not registered operations. The model starts the list from the whole `make_null_ptr()` pointer, as a pointer-aware operation would; under `primitive_function`, `wrap_ptr` would reject that pair with "Invalid typed elem". The count is an unbounded natural number compared with 0 and decremented by 1, which is `===` and `-` on unwrapped payloads.
- Heap.MakeCompoundFunction: `make_prog_ptr` (275) is not a registered operation. The model stores the whole `make_prog_ptr(exp)` pointer, as a pointer-aware operation would; under `primitive_function` its result, a pair, would be rejected by `wrap_ptr`. The call of `list` inherits the conventions stated for `Heap.BuildList`.
- Environment.LookupNameValue: `is_null_ptr` (228) and `===` (231) are not registered operations. The model applies `is_null_ptr` to the whole typed pointer, as `ptr_aware_function` would. Under `primitive_function`, the unwrapped payload would never be a null pointer, so the scan would never leave a frame. `===` follows `Evaluator.StrictEquals`.
- Environment.AssignNameValue: the same holds for `is_null_ptr` (250) and `===` (253, 261).
- RegisterMachine.Step: a machine that never halts is observed through `Exec` with fuel; divergence itself is not stated.

## Findings

| source | as written | input that shows it | evidently intended | confidence | as-written member | corrected member |
|---|---|---|---|---|---|---|
| 5.3.js:585-587 | `is_null_ptr` compares the boolean `is_ptr(p)` with `is_null(ptr_address(p))` using `===` | the pair `("number", 5)`: both sides are false, so it is called a null pointer; the atom `5` makes `ptr_address` fail | a pointer whose address is `null` | not executed | DraftPointers.IsNullPtrAsWrittenDiverges | DraftPointers.IsNullPtrCorrected |
| 4.1_to_register.js:53-55 | `is_number_ptr` tests the function value `is_ptr`, which is always truthy, instead of calling it | the pair `("number", (1, 2))` is accepted; the atom `7` makes `head` fail | `is_ptr(p) && head(p) === "number"`, as in the sibling predicates | not executed | TypedPointers.IsNumberPtrAsWrittenDiverges | TypedPointers.IsNumberPtrCorrected |
| 4.1_to_register.js:662-669 | `branch` tests host truthiness of `flag`, but a typed test stores a wrapped boolean, which is a pair | a test that returns `("bool", false)`: the branch is taken | branch on the wrapped boolean's payload | not executed | Values.WrappedFalseIsTruthy | Values.FlagHoldsReadsBooleans |
