/**
  Controller texts and assembled instructions.  A controller text is a
  list whose string entries are labels and whose other entries are
  instruction texts built by `assign`, `test`, `branch`, `go_to`, `save`,
  `restore` and `perform` (4.1_to_register.js:622-845).  The assembler turns
  each instruction text into an `Instr` whose labels, registers and
  operations are already resolved.
 */
module Instructions {
  import opened HostData
  import opened Errors
  import TP = TypedPointers
  import opened HostOps

  // ---- instruction texts, as the controller-writing functions build them ----

  // Each writer returns `list(tag, ...)`; the chains of pairs are written
  // out (`WritersBuildLists` states that they are those lists).

  function AssignText(reg: string, valueExp: Datum): Datum { Pair(Str("assign"), Pair(Str(reg), Pair(valueExp, Null))) }
  function TestText(condition: Datum): Datum { Pair(Str("test"), Pair(condition, Null)) }
  function BranchText(dest: Datum): Datum { Pair(Str("branch"), Pair(dest, Null)) }
  function GoToText(dest: Datum): Datum { Pair(Str("go_to"), Pair(dest, Null)) }
  function SaveText(reg: string): Datum { Pair(Str("save"), Pair(Str(reg), Null)) }
  function RestoreText(reg: string): Datum { Pair(Str("restore"), Pair(Str(reg), Null)) }
  function PerformText(action: Datum): Datum { Pair(Str("perform"), Pair(action, Null)) }
  function RegText(name: string): Datum { Pair(Str("reg"), Pair(Str(name), Null)) }
  function LabelText(name: string): Datum { Pair(Str("label"), Pair(Str(name), Null)) }
  function OpText(name: string): Datum { Pair(Str("op"), Pair(Str(name), Null)) }

  /** `constant` of 5.3.js:493-495: the value is stored as is. */
  function ConstantText(v: Datum): Datum { Pair(Str("constant"), Pair(v, Null)) }

  /** `constant` of 4.1_to_register.js:803-805: the value is wrapped first, so
      a pair cannot be a constant. */
  function TypedConstantText(v: Datum): (r: Result<Datum>)
    ensures r.Ok? <==> !v.Pair?
  {
    var w :- TP.WrapPtr(v);
    Ok(ConstantText(w))
  }

  /** `list(op(name), e1, ..., ek)`: an operation application. */
  function OpAppText(name: string, operands: seq<Datum>): Datum { Pair(OpText(name), List(operands)) }

  /** The writers build the lists the controller-writing functions of
      4.1_to_register.js:622-845 build. */
  lemma {:induction false} WritersBuildLists(reg: string, x: Datum, operands: seq<Datum>)
    ensures AssignText(reg, x) == List([Str("assign"), Str(reg), x])
    ensures TestText(x) == List([Str("test"), x]) && BranchText(x) == List([Str("branch"), x])
    ensures GoToText(x) == List([Str("go_to"), x]) && PerformText(x) == List([Str("perform"), x])
    ensures SaveText(reg) == List([Str("save"), Str(reg)]) && RestoreText(reg) == List([Str("restore"), Str(reg)])
    ensures RegText(reg) == List([Str("reg"), Str(reg)]) && LabelText(reg) == List([Str("label"), Str(reg)])
    ensures OpText(reg) == List([Str("op"), Str(reg)]) && ConstantText(x) == List([Str("constant"), x])
    ensures OpAppText(reg, operands) == List([OpText(reg)] + operands)
  {
    ListOfThree(Str("assign"), Str(reg), x);
    ListOfTwo(Str("test"), x);
    ListOfTwo(Str("branch"), x);
    ListOfTwo(Str("go_to"), x);
    ListOfTwo(Str("perform"), x);
    ListOfTwo(Str("save"), Str(reg));
    ListOfTwo(Str("restore"), Str(reg));
    ListOfTwo(Str("reg"), Str(reg));
    ListOfTwo(Str("label"), Str(reg));
    ListOfTwo(Str("op"), Str(reg));
    ListOfTwo(Str("constant"), x);
    assert ([OpText(reg)] + operands)[1..] == operands;
  }

  // ---- assembled instructions ----

  /** A primitive expression with its label or register resolved. */
  datatype Operand = Const(v: Datum) | LabelRef(target: nat) | RegRef(name: string)

  /** The operations an operation table binds names to.  `Primitive` is
      `primitive_function(fn)`, whose calling convention depends on the
      draft; `PtrAware` is `ptr_aware_function(fn)`, which passes operands
      untouched; the vector operations and `initialize_stack` reach into the
      machine's memory and stack. */
  datatype Op =
    | Primitive(f: HostFn)
    | PtrAware(f: HostFn)
    | VectorRefOp
    | VectorSetOp
    | InitializeStack

  datatype OpApp = OpApp(op: Op, operands: seq<Operand>)

  datatype Expr = Simple(src: Operand) | Apply(app: OpApp)

  datatype Instr =
    | Assign(reg: string, e: Expr)
    | Test(cond: OpApp)
    | Branch(target: nat)
    | GotoLabel(target: nat)
    | GotoReg(reg: string)
    | Save(reg: string)
    | Restore(reg: string)
    | Perform(action: OpApp)

  /** Every register an operand names is allocated and every label target is
      a suffix of an `n`-instruction sequence. */
  predicate OperandOk(o: Operand, n: nat, regs: set<string>)
  {
    match o
    case Const(_) => true
    case LabelRef(k) => k <= n
    case RegRef(r) => r in regs
  }

  predicate OpAppOk(app: OpApp, n: nat, regs: set<string>)
  {
    forall i :: 0 <= i < |app.operands| ==> OperandOk(app.operands[i], n, regs)
  }

  predicate ExprOk(e: Expr, n: nat, regs: set<string>)
  {
    match e
    case Simple(o) => OperandOk(o, n, regs)
    case Apply(app) => OpAppOk(app, n, regs)
  }

  predicate InstrOk(i: Instr, n: nat, regs: set<string>)
  {
    match i
    case Assign(r, e) => r in regs && ExprOk(e, n, regs)
    case Test(app) => OpAppOk(app, n, regs)
    case Branch(k) => k <= n
    case GotoLabel(k) => k <= n
    case GotoReg(r) => r in regs
    case Save(r) => r in regs
    case Restore(r) => r in regs
    case Perform(app) => OpAppOk(app, n, regs)
  }
}
