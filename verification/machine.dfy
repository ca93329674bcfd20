/**
  The register machine (4.1_to_register.js:307-505): the register table,
  the stack, the operation table, and the fetch-execute loop.  The machine
  is split into its fixed part (`Machine`: the draft's conventions and the
  assembled instructions) and its mutable part (`State`: register contents,
  the stack, and the vectors the registers point at).  Each JavaScript
  execution procedure becomes one case of the pure function `Execute`.
 */
module RegisterMachine {
  import opened HostData
  import opened Errors
  import opened Values
  import opened HostOps
  import opened Instructions
  import opened Assembler
  import TP = TypedPointers

  datatype State = State(regs: map<string, Value>, stack: seq<Value>, mem: Memory)

  datatype Machine = Machine(draft: Draft, insts: seq<Instr>)

  // ---- the stack (make_stack) ----

  /** `push`: the new value goes on top (index 0). */
  function Push(stack: seq<Value>, x: Value): (r: seq<Value>)
    ensures |r| == |stack| + 1 && r[0] == x && r[1..] == stack
  {
    [x] + stack
  }

  /** `pop`: the top value and the rest; "Empty stack: POP" when empty. */
  function Pop(stack: seq<Value>): (r: Result<(Value, seq<Value>)>)
    ensures r.Err? <==> |stack| == 0
    ensures r.Err? ==> r.error == EmptyStack
    ensures r.Ok? ==> [r.value.0] + r.value.1 == stack
  {
    if |stack| == 0 then Err(EmptyStack) else Ok((stack[0], stack[1..]))
  }

  /** The stack is last-in first-out. */
  lemma {:induction false} PopAfterPush(stack: seq<Value>, x: Value, y: Value)
    ensures Pop(Push(stack, x)) == Ok((x, stack))
    ensures Pop(Push(Push(stack, x), y)) == Ok((y, Push(stack, x)))
  {
  }

  // ---- the register table ----

  /** The registers `make_new_machine` creates, in table order.  The typed
      draft adds the program-heap, evaluator and auxiliary registers. */
  function BuiltinRegisters(draft: Draft): seq<string>
  {
    ["pc", "flag", "the_heads", "the_tails", "new_heads", "new_tails"]
    + (if draft.Typed? then ["prog_heads", "prog_tails"] else [])
    + ["free", "scan", "old", "new", "relocate_continue", "temp", "oldhr"]
    + (if draft.Typed? then ["exp", "env", "val", "continue", "proc", "argl", "unev",
                            "res", "head", "rexpes"] else [])
  }

  /** Vector registers start out holding their vector; the rest "*unassigned*". */
  function InitialContents(name: string): Value
  {
    if name == "the_heads" then Vec(TheHeads)
    else if name == "the_tails" then Vec(TheTails)
    else if name == "new_heads" then Vec(NewHeads)
    else if name == "new_tails" then Vec(NewTails)
    else if name == "prog_heads" then Vec(ProgHeads)
    else if name == "prog_tails" then Vec(ProgTails)
    else Unassigned
  }

  function BuiltinTable(draft: Draft): map<string, Value>
  {
    map n | n in BuiltinRegisters(draft) :: InitialContents(n)
  }

  /** No name of `names` is in `table`, and no name occurs twice. */
  predicate FreshNames(table: map<string, Value>, names: seq<string>)
  {
    && (forall n :: n in names ==> n !in table)
    && (forall i, j :: 0 <= i < j < |names| ==> names[i] != names[j])
  }

  lemma {:induction false} FreshNamesStep(table: map<string, Value>, names: seq<string>)
    requires |names| > 0 && names[0] !in table
    ensures FreshNames(table, names) <==> FreshNames(table[names[0] := Unassigned], names[1..])
  {
    assert forall i :: 1 <= i < |names| ==> names[i] == names[1..][i - 1];
    assert forall n :: n in names ==> n == names[0] || n in names[1..];
    if FreshNames(table[names[0] := Unassigned], names[1..]) {
      forall i, j | 0 <= i < j < |names|
        ensures names[i] != names[j]
      {
        if i == 0 {
          assert names[j] in names[1..];
        }
      }
    }
  }

  /** `allocate_register` for each name in turn: a name already in the table
      (a built-in or an earlier name) is "Multiply defined register". */
  function AllocateRegisters(table: map<string, Value>, names: seq<string>): (r: Result<map<string, Value>>)
    decreases |names|
    ensures r.Ok? <==> FreshNames(table, names)
    ensures r.Ok? ==> forall n :: n in table ==> n in r.value && r.value[n] == table[n]
    ensures r.Ok? ==> forall n :: n in names ==> n in r.value && r.value[n] == Unassigned
    ensures r.Ok? ==> forall n :: n in r.value ==> n in table || n in names
    ensures |names| > 0 && names[0] in table ==> r == Err(MultiplyDefinedRegister(names[0]))
    ensures r.Err? ==> r.error.MultiplyDefinedRegister?
  {
    if |names| == 0 then Ok(table)
    else if names[0] in table then Err(MultiplyDefinedRegister(names[0]))
    else
      FreshNamesStep(table, names);
      assert forall n :: n in names ==> n == names[0] || n in names[1..];
      AllocateRegisters(table[names[0] := Unassigned], names[1..])
  }

  /** In the typed draft the evaluator's registers are built in, so a machine
      that allocates "continue" or "val" itself is refused; the raw draft
      has no such registers. */
  lemma {:induction false} EvaluatorRegistersAreBuiltin(names: seq<string>)
    requires |names| > 0 && (names[0] == "continue" || names[0] == "val")
    ensures AllocateRegisters(BuiltinTable(Typed), names) == Err(MultiplyDefinedRegister(names[0]))
    ensures names[0] !in BuiltinTable(Raw)
  {
    TypedEvaluatorRegisters();
    RawEvaluatorRegisters();
  }

  lemma {:induction false} TypedEvaluatorRegisters()
    ensures "continue" in BuiltinTable(Typed) && "val" in BuiltinTable(Typed)
  {
  }

  lemma {:induction false} RawEvaluatorRegisters()
    ensures "continue" !in BuiltinTable(Raw) && "val" !in BuiltinTable(Raw)
  {
    var r := BuiltinRegisters(Raw);
    assert r == ["pc", "flag", "the_heads", "the_tails", "new_heads", "new_tails",
                 "free", "scan", "old", "new", "relocate_continue", "temp", "oldhr"];
    forall i | 0 <= i < |r|
      ensures r[i] != "continue" && r[i] != "val"
    {
      assert |r[i]| != 3 || r[i][0] != 'v';
    }
  }

  /** The operations every machine starts with: `initialize_stack` and
      `vector_ops`. */
  function BuiltinOps(): seq<(Datum, Op)>
  {
    [(Str("initialize_stack"), InitializeStack),
     (Str("vector_ref"), VectorRefOp),
     (Str("vector_set"), VectorSetOp),
     (Str("+"), Primitive(Add)),
     (Str("display"), Primitive(Display))]
  }

  /** `install_operations` appends, so a built-in operation shadows a
      user-supplied one of the same name. */
  function OpsTable(ops: seq<(string, Op)>): (t: seq<(Datum, Op)>)
    ensures |t| == 5 + |ops|
    ensures forall i :: 0 <= i < |ops| ==> t[5 + i] == (Str(ops[i].0), ops[i].1)
  {
    BuiltinOps() + seq(|ops|, i requires 0 <= i < |ops| => (Str(ops[i].0), ops[i].1))
  }

  lemma {:induction false} BuiltinOpsShadow(ops: seq<(string, Op)>)
    ensures LookupPrim(OpsTable(ops), Str("+")) == Ok(Primitive(Add))
    ensures LookupPrim(OpsTable(ops), Str("vector_set")) == Ok(VectorSetOp)
  {
    AssocFirstMatch(Str("+"), OpsTable(ops), 3);
    AssocFirstMatch(Str("vector_set"), OpsTable(ops), 2);
  }

  /** The machine is consistent with its state: the program counter and flag
      exist and every instruction's registers and labels are resolved. */
  predicate WellFormed(m: Machine, s: State)
  {
    && "pc" in s.regs && "flag" in s.regs && "free" in s.regs
    && forall i :: 0 <= i < |m.insts| ==> InstrOk(m.insts[i], |m.insts|, s.regs.Keys)
  }

  /** `make_machine`: allocate the registers, install the operations, and
      assemble the controller text against both. */
  function MakeMachine(draft: Draft, names: seq<string>, ops: seq<(string, Op)>, text: seq<Datum>)
    : (r: Result<(Machine, State)>)
    ensures r.Ok? ==> WellFormed(r.value.0, r.value.1)
    ensures r.Ok? ==> r.value.1.stack == [] && r.value.0.draft == draft
    ensures r.Ok? ==> |r.value.0.insts| == CountInsts(text)
    ensures r.Ok? ==> forall n :: n in names ==> n in r.value.1.regs && r.value.1.regs[n] == Unassigned
    ensures AllocateRegisters(BuiltinTable(draft), names).Err? ==> r.Err? && r.error.MultiplyDefinedRegister?
    ensures AllocateRegisters(BuiltinTable(draft), names).Ok? ==>
      var known := BuiltinTable(draft).Keys + (set n | n in names);
      && (r.Ok? <==> Assemble(text, known, OpsTable(ops)).Ok?)
      && (r.Err? ==> r == Err(Assemble(text, known, OpsTable(ops)).error))
  {
    var regs :- AllocateRegisters(BuiltinTable(draft), names);
    assert regs.Keys == BuiltinTable(draft).Keys + (set n | n in names);
    assert "pc" in BuiltinRegisters(draft) && "flag" in BuiltinRegisters(draft) && "free" in BuiltinRegisters(draft);
    var insts :- Assemble(text, regs.Keys, OpsTable(ops));
    Ok((Machine(draft, insts), State(regs, [], map[])))
  }

  // ---- register access from outside ----

  /** `get_register_contents`. */
  function GetRegisterContents(s: State, name: string): (r: Result<Value>)
    ensures r.Ok? <==> name in s.regs
    ensures r.Ok? ==> r.value == s.regs[name]
    ensures r.Err? ==> r.error == UnknownRegister(Str(name))
  {
    if name in s.regs then Ok(s.regs[name]) else Err(UnknownRegister(Str(name)))
  }

  /** `set_register_contents`: only the named register changes. */
  function SetRegisterContents(s: State, name: string, v: Value): (r: Result<State>)
    ensures r.Ok? <==> name in s.regs
    ensures r.Ok? ==> r.value.regs.Keys == s.regs.Keys && r.value.regs[name] == v
    ensures r.Ok? ==> forall q :: q in s.regs && q != name ==> r.value.regs[q] == s.regs[q]
    ensures r.Ok? ==> r.value.stack == s.stack && r.value.mem == s.mem
    ensures r.Err? ==> r.error == UnknownRegister(Str(name))
  {
    if name in s.regs then Ok(s.(regs := s.regs[name := v])) else Err(UnknownRegister(Str(name)))
  }

  // ---- executing instructions ----

  /** The value of the instruction suffix starting at `k` in an `n`-instruction
      program: the empty suffix is `null`. */
  function SuffixValue(k: nat, n: nat): Value
  {
    if k < n then Code(k) else Data(Null)
  }

  function OperandValue(m: Machine, s: State, o: Operand): (r: Result<Value>)
    ensures OperandOk(o, |m.insts|, s.regs.Keys) ==> r.Ok?
    ensures r.Err? ==> !IsSetupError(r.error) || !OperandOk(o, |m.insts|, s.regs.Keys)
  {
    match o
    case Const(v) => Ok(Data(v))
    case LabelRef(k) => Ok(SuffixValue(k, |m.insts|))
    case RegRef(r) => GetRegisterContents(s, r)
  }

  function OperandValues(m: Machine, s: State, os: seq<Operand>): (r: Result<seq<Value>>)
    ensures (forall i :: 0 <= i < |os| ==> OperandOk(os[i], |m.insts|, s.regs.Keys)) ==> r.Ok?
    ensures r.Ok? ==> |r.value| == |os|
    ensures r.Ok? ==> forall i :: 0 <= i < |os| ==> OperandValue(m, s, os[i]) == Ok(r.value[i])
    ensures r.Err? ==> exists i :: 0 <= i < |os| && OperandValue(m, s, os[i]) == Err(r.error)
  {
    if |os| == 0 then Ok([])
    else
      var v :- OperandValue(m, s, os[0]);
      var rest :- OperandValues(m, s, os[1..]);
      assert forall i :: 1 <= i < |os| ==> os[i] == os[1..][i - 1];
      Ok([v] + rest)
  }

  function ArgValue(args: seq<Value>, i: nat): Value
  {
    if i < |args| then args[i] else Data(Undefined)
  }

  /** The host values passed to a function applied directly. */
  function RawArgs(args: seq<Value>): (r: Result<seq<Datum>>)
    ensures r.Ok? ==> |r.value| == |args| && forall i :: 0 <= i < |args| ==> AsDatum(args[i]) == Some(r.value[i])
    ensures r.Err? ==> r.error == BadOperand
  {
    if |args| == 0 then Ok([])
    else
      match AsDatum(args[0])
      case None => Err(BadOperand)
      case Some(d) =>
        var rest :- RawArgs(args[1..]);
        assert forall i :: 1 <= i < |args| ==> args[i] == args[1..][i - 1];
        Ok([d] + rest)
  }

  /** `map(unwrap_ptr, args)`. */
  function UnwrappedArgs(args: seq<Value>): (r: Result<seq<Datum>>)
    ensures r.Ok? ==> |r.value| == |args|
    ensures r.Ok? ==> forall i :: 0 <= i < |args| ==>
      AsDatum(args[i]).Some? && TP.UnwrapPtr(AsDatum(args[i]).value) == Ok(r.value[i])
    ensures r.Err? ==> r.error == BadOperand || r.error.NotAPair?
  {
    if |args| == 0 then Ok([])
    else
      match AsDatum(args[0])
      case None => Err(BadOperand)
      case Some(d) =>
        var x :- TP.UnwrapPtr(d);
        var rest :- UnwrappedArgs(args[1..]);
        assert forall i :: 1 <= i < |args| ==> args[i] == args[1..][i - 1];
        Ok([x] + rest)
  }

  /** Applying a table operation to its operand values.  In the typed draft
      `primitive_function` unwraps every operand and wraps the result; in the
      raw draft it applies the function to the values as they are. */
  function ApplyOp(draft: Draft, op: Op, args: seq<Value>, s: State): (r: Result<(Value, State)>)
    ensures r.Ok? ==> r.value.1.regs == s.regs
    ensures r.Ok? && !op.InitializeStack? ==> r.value.1.stack == s.stack
    ensures r.Ok? && op.InitializeStack? ==> r.value.1.stack == []
    ensures r.Ok? && !op.VectorSetOp? ==> r.value.1.mem == s.mem
    ensures r.Err? ==> !IsSetupError(r.error)
  {
    match op
    case Primitive(f) =>
      if draft.Typed? then
        var xs :- UnwrappedArgs(args);
        var y :- ApplyHost(f, xs);
        var w :- TP.WrapPtr(y);
        Ok((Data(w), s))
      else
        var xs :- RawArgs(args);
        var y :- ApplyHost(f, xs);
        Ok((Data(y), s))
    case PtrAware(f) =>
      var xs :- RawArgs(args);
      var y :- ApplyHost(f, xs);
      Ok((Data(y), s))
    case VectorRefOp =>
      var v :- VectorRef(draft, s.mem, ArgValue(args, 0), ArgValue(args, 1));
      Ok((v, s))
    case VectorSetOp =>
      var mem :- VectorSet(draft, s.mem, ArgValue(args, 0), ArgValue(args, 1), ArgValue(args, 2));
      Ok((Data(Undefined), s.(mem := mem)))
    case InitializeStack =>
      Ok((Data(Str("done")), s.(stack := [])))
  }

  function ApplyApp(m: Machine, app: OpApp, s: State): (r: Result<(Value, State)>)
    ensures r.Ok? ==> r.value.1.regs == s.regs
    ensures r.Ok? && !app.op.InitializeStack? ==> r.value.1.stack == s.stack
    ensures r.Ok? && !app.op.VectorSetOp? ==> r.value.1.mem == s.mem
    ensures r.Err? && OpAppOk(app, |m.insts|, s.regs.Keys) ==> !IsSetupError(r.error)
  {
    var args :- OperandValues(m, s, app.operands);
    ApplyOp(m.draft, app.op, args, s)
  }

  function EvalExpr(m: Machine, e: Expr, s: State): (r: Result<(Value, State)>)
    ensures r.Ok? ==> r.value.1.regs == s.regs
    ensures r.Ok? && !(e.Apply? && e.app.op.InitializeStack?) ==> r.value.1.stack == s.stack
    ensures r.Ok? && !(e.Apply? && e.app.op.VectorSetOp?) ==> r.value.1.mem == s.mem
    ensures r.Err? && ExprOk(e, |m.insts|, s.regs.Keys) ==> !IsSetupError(r.error)
  {
    match e
    case Simple(o) =>
      var v :- OperandValue(m, s, o);
      Ok((v, s))
    case Apply(app) => ApplyApp(m, app, s)
  }

  /** The successor of a program-counter value: `tail(get_contents(pc))`. */
  function NextPc(n: nat, pc: Value): (r: Result<Value>)
    ensures pc.Code? && pc.k < n ==> r == Ok(SuffixValue(pc.k + 1, n))
    ensures r.Err? ==> !IsSetupError(r.error)
  {
    match pc
    case Code(k) => if k < n then Ok(SuffixValue(k + 1, n)) else Err(NotAnInstructionList)
    case Data(d) => if d.Pair? then Ok(Data(d.tl)) else Err(NotAPair(d))
    case _ => Err(NotAnInstructionList)
  }

  /** `advance_pc`. */
  function AdvancePc(m: Machine, s: State): (r: Result<State>)
    ensures r.Ok? ==> "pc" in s.regs && NextPc(|m.insts|, s.regs["pc"]).Ok? &&
                      r.value == s.(regs := s.regs["pc" := NextPc(|m.insts|, s.regs["pc"]).value])
    ensures r.Err? ==> !IsSetupError(r.error) || "pc" !in s.regs
  {
    var pc :- GetRegisterContents(s, "pc");
    var next :- NextPc(|m.insts|, pc);
    Ok(s.(regs := s.regs["pc" := next]))
  }

  /** `set_contents(pc, v)`. */
  function Jump(s: State, v: Value): State
  {
    s.(regs := s.regs["pc" := v])
  }

  /** The execution procedure of one assembled instruction. */
  function Execute(m: Machine, i: Instr, s: State): (r: Result<State>)
    requires "pc" in s.regs
    ensures r.Ok? ==> r.value.regs.Keys == s.regs.Keys
  {
    match i
    case Assign(reg, e) =>
      var p :- EvalExpr(m, e, s);
      var s1 :- SetRegisterContents(p.1, reg, p.0);
      AdvancePc(m, s1)
    case Test(app) =>
      var p :- ApplyApp(m, app, s);
      var s1 :- SetRegisterContents(p.1, "flag", p.0);
      AdvancePc(m, s1)
    case Branch(k) =>
      var flag :- GetRegisterContents(s, "flag");
      if FlagHolds(m.draft, flag) then Ok(Jump(s, SuffixValue(k, |m.insts|))) else AdvancePc(m, s)
    case GotoLabel(k) => Ok(Jump(s, SuffixValue(k, |m.insts|)))
    case GotoReg(reg) =>
      var v :- GetRegisterContents(s, reg);
      Ok(Jump(s, v))
    case Save(reg) =>
      var v :- GetRegisterContents(s, reg);
      AdvancePc(m, s.(stack := Push(s.stack, v)))
    case Restore(reg) =>
      var p :- Pop(s.stack);
      var s1 :- SetRegisterContents(s.(stack := p.1), reg, p.0);
      AdvancePc(m, s1)
    case Perform(app) =>
      var p :- ApplyApp(m, app, s);
      AdvancePc(m, p.1)
  }

  datatype StepResult = Halted | Next(next: State) | Fault(error: Error)

  /** One round of `execute`: stop when the program counter holds the empty
      instruction list, otherwise run the instruction it points at. */
  function Step(m: Machine, s: State): (r: StepResult)
    ensures r.Halted? <==> "pc" in s.regs && s.regs["pc"] == Data(Null)
    ensures r.Next? ==> r.next.regs.Keys == s.regs.Keys
  {
    if "pc" !in s.regs then Fault(UnknownRegister(Str("pc")))
    else
      var pc := s.regs["pc"];
      if pc == Data(Null) then Halted
      else if pc.Code? && pc.k < |m.insts| then
        match Execute(m, m.insts[pc.k], s)
        case Ok(t) => Next(t)
        case Err(e) => Fault(e)
      else Fault(NotAnInstructionList)
  }

  datatype Outcome = Halt(final: State) | Fail(error: Error) | Running(current: State)

  /** `execute` with a bound on the number of instructions: `Running` means
      the bound was reached first. */
  function Exec(m: Machine, s: State, fuel: nat): (r: Outcome)
    ensures r.Halt? ==> "pc" in r.final.regs && r.final.regs["pc"] == Data(Null)
    decreases fuel
  {
    if fuel == 0 then Running(s)
    else
      match Step(m, s)
      case Halted => Halt(s)
      case Fault(e) => Fail(e)
      case Next(t) => Exec(m, t, fuel - 1)
  }

  /** The free pointer `start` installs: `make_ptr_ptr(0)` in the typed
      draft, raw `0` in the raw draft. */
  function FreeStart(draft: Draft): Value
  {
    if draft.Typed? then Data(TP.MakePtrPtr(0)) else Data(Num(0))
  }

  /** `start`, first half: point `pc` at the whole instruction sequence and
      reset `free`; nothing else changes. */
  function Start(m: Machine, s: State): (r: Result<State>)
    ensures r.Ok? <==> "pc" in s.regs && "free" in s.regs
    ensures r.Ok? ==> r.value.regs.Keys == s.regs.Keys && r.value.stack == s.stack && r.value.mem == s.mem
    ensures r.Ok? ==> r.value.regs["pc"] == SuffixValue(0, |m.insts|) && r.value.regs["free"] == FreeStart(m.draft)
    ensures r.Ok? ==> forall q :: q in s.regs && q != "pc" && q != "free" ==> r.value.regs[q] == s.regs[q]
  {
    var s1 :- SetRegisterContents(s, "pc", SuffixValue(0, |m.insts|));
    SetRegisterContents(s1, "free", FreeStart(m.draft))
  }

  /** `start`: install the program counter and free pointer, then run. */
  function Run(m: Machine, s: State, fuel: nat): Outcome
  {
    match Start(m, s)
    case Ok(t) => Exec(m, t, fuel)
    case Err(e) => Fail(e)
  }
}
