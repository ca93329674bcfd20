/**
  The gcd controller of test_cases_5_2.js:1-20: Euclid's algorithm with the
  remainder operation, under the raw draft.
 */
module GcdMachine {
  import opened HostData
  import opened Errors
  import opened Values
  import opened HostOps
  import opened Instructions
  import opened Assembler
  import opened RegisterMachine
  import opened MachineLaws
  import opened Controllers

  // ---- the gcd machine (test_cases_5_2.js:1-20) ----

  datatype GcdNames = GcdNames(a: string, b: string, t: string,
                               rem: string, eq: string, show: string,
                               testB: string, done: string)

  /** The names test_cases_5_2.js uses. */
  const TestGcd := GcdNames("a", "b", "t", "rem", "=", "print", "test-b", "gcd-done")

  function GcdRegisters(n: GcdNames): seq<string> { [n.a, n.b, n.t] }

  function GcdOps(n: GcdNames): seq<(string, Op)>
  {
    [(n.rem, Primitive(Rem)), (n.eq, Primitive(StrictEq)), (n.show, Primitive(Display))]
  }

  function GcdText(n: GcdNames): seq<Datum>
  {
    [Str(n.testB),
     TestText(OpAppText(n.eq, [RegText(n.b), ConstantText(Num(0))])),
     BranchText(LabelText(n.done)),
     AssignText(n.t, OpAppText(n.rem, [RegText(n.a), RegText(n.b)])),
     AssignText(n.a, RegText(n.b)),
     AssignText(n.b, RegText(n.t)),
     GoToText(LabelText(n.testB)),
     Str(n.done),
     PerformText(OpAppText(n.show, [RegText(n.a)]))]
  }

  /** The instructions the text assembles to: the first label names
      instruction 0 and the second instruction 6. */
  function GcdProgram(n: GcdNames): seq<Instr>
  {
    [Test(OpApp(Primitive(StrictEq), [RegRef(n.b), Const(Num(0))])),
     Branch(6),
     Assign(n.t, Apply(OpApp(Primitive(Rem), [RegRef(n.a), RegRef(n.b)]))),
     Assign(n.a, Simple(RegRef(n.b))),
     Assign(n.b, Simple(RegRef(n.t))),
     GotoLabel(0),
     Perform(OpApp(Primitive(Display), [RegRef(n.a)]))]
  }

  /** The names make a machine `make_machine` accepts: fresh registers, fresh
      operations and two different labels. */
  predicate GcdNamesOk(n: GcdNames)
  {
    FreshNames(BuiltinTable(Raw), GcdRegisters(n)) && FreshOps(GcdOps(n)) && n.testB != n.done
  }

  lemma {:induction false} TestGcdNamesOk()
    ensures GcdNamesOk(TestGcd)
  {
    var ops := GcdOps(TestGcd);
    forall i, j | 0 <= i < |ops| && 0 <= j < |BuiltinOps()| ensures BuiltinOps()[j].0 != Str(ops[i].0) {
      assert |BuiltinOps()[j].0.s| > 1 || BuiltinOps()[j].0.s == "+";
    }
    RawRegistersFresh(GcdRegisters(TestGcd));
  }

  // ---- assembling the gcd text ----

  lemma {:induction false} GcdTextShape(n: GcdNames)
    ensures |GcdText(n)| == 9 && GcdText(n)[0] == Str(n.testB) && GcdText(n)[7] == Str(n.done)
    ensures forall i :: 0 < i < 9 && i != 7 ==> !GcdText(n)[i].Str?
  {
  }

  /** The labels of the gcd text. */
  lemma {:induction false} GcdLabels(n: GcdNames)
    ensures ExtractLabels(GcdText(n)) ==
      (GcdText(n)[1..7] + GcdText(n)[8..], [(Str(n.testB), 0), (Str(n.done), 6)])
  {
    GcdTextShape(n);
    TwoBlocks(GcdText(n));
  }

  /** A text of one label, six instructions, a label and one instruction. */
  lemma {:induction false} TwoBlocks(t: seq<Datum>)
    requires |t| == 9 && t[0].Str? && t[7].Str?
    requires forall i :: 0 < i < 9 && i != 7 ==> !t[i].Str?
    ensures ExtractLabels(t) == (t[1..7] + t[8..], [(t[0], 0), (t[7], 6)])
  {
    var loop, done := t[1..7], t[8..];
    assert t == [t[0]] + (loop + ([t[7]] + done));
    ExtractLabelsAcrossInstructions(done, []);
    assert done + [] == done;
    assert ExtractLabels(done) == (done, []);
    ExtractLabelsAtLabel(t[7], done);
    ExtractLabelsAcrossInstructions(loop, [t[7]] + done);
    assert ShiftBy([(t[7], 0)], 6) == [(t[7], 6)];
    ExtractLabelsAtLabel(t[0], loop + ([t[7]] + done));
    assert [(t[7], 0)] + [] == [(t[7], 0)];
    assert ExtractLabels(loop + ([t[7]] + done)) == (loop + done, [(t[7], 6)]);
    assert [(t[0], 0)] + [(t[7], 6)] == [(t[0], 0), (t[7], 6)];
  }

  /** `make_machine` accepts the gcd controller under any admissible names:
      it allocates the three registers and assembles the text to
      `GcdProgram`, with the flag, the stack and the program counter as the
      raw draft sets them up. */
  lemma {:induction false} GcdAssembles(n: GcdNames)
    requires GcdNamesOk(n)
    ensures var r := MakeMachine(Raw, GcdRegisters(n), GcdOps(n), GcdText(n));
      && r.Ok? && r.value.0 == Machine(Raw, GcdProgram(n))
      && r.value.1 == State(AllocateRegisters(BuiltinTable(Raw), GcdRegisters(n)).value, [], map[])
  {
    var regs := AllocateRegisters(BuiltinTable(Raw), GcdRegisters(n)).value;
    assert n.a in GcdRegisters(n) && n.b in GcdRegisters(n) && n.t in GcdRegisters(n);
    var ops := OpsTable(GcdOps(n));
    UserOpFound(GcdOps(n), 0);
    UserOpFound(GcdOps(n), 1);
    UserOpFound(GcdOps(n), 2);
    GcdLabels(n);
    GcdInstructionsResolve(n, regs.Keys, ops);
  }

  /** The test of `b` against zero and the final `print` resolve to
      operation applications of the bound host functions. */
  lemma {:induction false} GcdTestsResolve(n: GcdNames, labels: LabelTable, regs: set<string>, ops: seq<(Datum, Op)>)
    requires n.a in regs && n.b in regs
    requires LookupPrim(ops, Str(n.eq)) == Ok(Primitive(StrictEq))
    requires LookupPrim(ops, Str(n.show)) == Ok(Primitive(Display))
    ensures MakeExecution(TestText(OpAppText(n.eq, [RegText(n.b), ConstantText(Num(0))])), labels, regs, ops) ==
            Ok(Test(OpApp(Primitive(StrictEq), [RegRef(n.b), Const(Num(0))])))
    ensures MakeExecution(PerformText(OpAppText(n.show, [RegText(n.a)])), labels, regs, ops) ==
            Ok(Perform(OpApp(Primitive(Display), [RegRef(n.a)])))
  {
    GcdTestResolves(n, labels, regs, ops);
    GcdPerformResolves(n, labels, regs, ops);
  }

  lemma {:induction false} GcdTestResolves(n: GcdNames, labels: LabelTable, regs: set<string>, ops: seq<(Datum, Op)>)
    requires n.b in regs
    requires LookupPrim(ops, Str(n.eq)) == Ok(Primitive(StrictEq))
    ensures MakeExecution(TestText(OpAppText(n.eq, [RegText(n.b), ConstantText(Num(0))])), labels, regs, ops) ==
            Ok(Test(OpApp(Primitive(StrictEq), [RegRef(n.b), Const(Num(0))])))
  {
    PrimitiveTextsResolve(n.b, Num(0), labels, regs);
    TestResolves(n.eq, [RegText(n.b), ConstantText(Num(0))], StrictEq, [RegRef(n.b), Const(Num(0))], labels, regs, ops);
  }

  lemma {:induction false} GcdPerformResolves(n: GcdNames, labels: LabelTable, regs: set<string>, ops: seq<(Datum, Op)>)
    requires n.a in regs
    requires LookupPrim(ops, Str(n.show)) == Ok(Primitive(Display))
    ensures MakeExecution(PerformText(OpAppText(n.show, [RegText(n.a)])), labels, regs, ops) ==
            Ok(Perform(OpApp(Primitive(Display), [RegRef(n.a)])))
  {
    PrimitiveTextsResolve(n.a, Num(0), labels, regs);
    TestResolves(n.show, [RegText(n.a)], Display, [RegRef(n.a)], labels, regs, ops);
  }

  /** The branch to `gcd-done` and the jump back to `test-b` resolve to the
      instruction numbers the labels name. */
  lemma {:induction false} GcdJumpsResolve(n: GcdNames, regs: set<string>, ops: seq<(Datum, Op)>)
    requires n.testB != n.done
    ensures var labels := [(Str(n.testB), 0), (Str(n.done), 6)];
      && MakeExecution(BranchText(LabelText(n.done)), labels, regs, ops) == Ok(Branch(6))
      && MakeExecution(GoToText(LabelText(n.testB)), labels, regs, ops) == Ok(GotoLabel(0))
  {
    var labels := [(Str(n.testB), 0), (Str(n.done), 6)];
    AssocFirstMatch(Str(n.done), labels, 1);
    AssocFirstMatch(Str(n.testB), labels, 0);
    JumpTextsResolve(n.done, labels, regs, ops);
    JumpTextsResolve(n.testB, labels, regs, ops);
  }

  /** The three assignments of the loop body resolve. */
  lemma {:induction false} GcdAssignsResolve(n: GcdNames, labels: LabelTable, regs: set<string>, ops: seq<(Datum, Op)>)
    requires n.a in regs && n.b in regs && n.t in regs
    requires LookupPrim(ops, Str(n.rem)) == Ok(Primitive(Rem))
    ensures MakeExecution(AssignText(n.t, OpAppText(n.rem, [RegText(n.a), RegText(n.b)])), labels, regs, ops) ==
            Ok(Assign(n.t, Apply(OpApp(Primitive(Rem), [RegRef(n.a), RegRef(n.b)]))))
    ensures MakeExecution(AssignText(n.a, RegText(n.b)), labels, regs, ops) == Ok(Assign(n.a, Simple(RegRef(n.b))))
    ensures MakeExecution(AssignText(n.b, RegText(n.t)), labels, regs, ops) == Ok(Assign(n.b, Simple(RegRef(n.t))))
  {
    PrimitiveTextsResolve(n.a, Num(0), labels, regs);
    PrimitiveTextsResolve(n.b, Num(0), labels, regs);
    PrimitiveTextsResolve(n.t, Num(0), labels, regs);
    AssignOpResolves(n.t, n.rem, [RegText(n.a), RegText(n.b)], Rem, [RegRef(n.a), RegRef(n.b)], labels, regs, ops);
    AssignSimpleResolves(n.a, RegText(n.b), n.b, RegRef(n.b), labels, regs, ops);
    AssignSimpleResolves(n.b, RegText(n.t), n.t, RegRef(n.t), labels, regs, ops);
  }

  /** Every instruction of the gcd text resolves to the matching instruction
      of `GcdProgram`. */
  lemma {:induction false} GcdInstructionsResolve(n: GcdNames, regs: set<string>, ops: seq<(Datum, Op)>)
    requires n.a in regs && n.b in regs && n.t in regs && n.testB != n.done
    requires LookupPrim(ops, Str(n.rem)) == Ok(Primitive(Rem))
    requires LookupPrim(ops, Str(n.eq)) == Ok(Primitive(StrictEq))
    requires LookupPrim(ops, Str(n.show)) == Ok(Primitive(Display))
    ensures var labels := [(Str(n.testB), 0), (Str(n.done), 6)];
      MakeAll(GcdText(n)[1..7] + GcdText(n)[8..], labels, regs, ops) == Ok(GcdProgram(n))
  {
    var labels := [(Str(n.testB), 0), (Str(n.done), 6)];
    GcdTestsResolve(n, labels, regs, ops);
    GcdJumpsResolve(n, regs, ops);
    GcdAssignsResolve(n, labels, regs, ops);
    MakeAllSeven(TestText(OpAppText(n.eq, [RegText(n.b), ConstantText(Num(0))])),
                 BranchText(LabelText(n.done)),
                 AssignText(n.t, OpAppText(n.rem, [RegText(n.a), RegText(n.b)])),
                 AssignText(n.a, RegText(n.b)),
                 AssignText(n.b, RegText(n.t)),
                 GoToText(LabelText(n.testB)),
                 PerformText(OpAppText(n.show, [RegText(n.a)])),
                 Test(OpApp(Primitive(StrictEq), [RegRef(n.b), Const(Num(0))])),
                 Branch(6),
                 Assign(n.t, Apply(OpApp(Primitive(Rem), [RegRef(n.a), RegRef(n.b)]))),
                 Assign(n.a, Simple(RegRef(n.b))),
                 Assign(n.b, Simple(RegRef(n.t))),
                 GotoLabel(0),
                 Perform(OpApp(Primitive(Display), [RegRef(n.a)])),
                 labels, regs, ops);
    GcdBodyText(n);
  }

  /** The text without its labels is the seven instruction texts in order. */
  lemma {:induction false} GcdBodyText(n: GcdNames)
    ensures GcdText(n)[1..7] + GcdText(n)[8..] ==
      [TestText(OpAppText(n.eq, [RegText(n.b), ConstantText(Num(0))])),
       BranchText(LabelText(n.done)),
       AssignText(n.t, OpAppText(n.rem, [RegText(n.a), RegText(n.b)])),
       AssignText(n.a, RegText(n.b)),
       AssignText(n.b, RegText(n.t)),
       GoToText(LabelText(n.testB)),
       PerformText(OpAppText(n.show, [RegText(n.a)]))]
  {
  }


  // ---- the reference: Euclid's algorithm ----

  function Abs(x: int): nat { if x < 0 then -x else x }

  /** Euclid's algorithm with JavaScript's `%`: the value the machine leaves
      in `a`.  It is zero only when both inputs are. */
  function GcdOf(a: int, b: int): (r: int)
    ensures r == 0 <==> a == 0 && b == 0
    decreases Abs(b)
  {
    if b == 0 then a else GcdOf(b, JsRem(a, b))
  }

  ghost predicate Divides(d: int, x: int)
  {
    exists k :: x == k * d
  }

  lemma {:induction false} DividesSum(d: int, x: int, y: int, q: int)
    requires Divides(d, x) && Divides(d, y)
    ensures Divides(d, q * x + y)
  {
    var kx :| x == kx * d;
    var ky :| y == ky * d;
    assert q * x == (q * kx) * d;
    assert q * x + y == (q * kx + ky) * d;
  }

  lemma {:induction false} DividesDifference(d: int, x: int, y: int, q: int)
    requires Divides(d, x) && Divides(d, q * x + y)
    ensures Divides(d, y)
  {
    var kx :| x == kx * d;
    var ks :| q * x + y == ks * d;
    assert q * x == (q * kx) * d;
    assert y == (ks - q * kx) * d;
  }

  /** On non-negative inputs `GcdOf` is the greatest common divisor: it
      divides both inputs and every common divisor divides it. */
  lemma {:induction false} GcdOfIsGcd(a: int, b: int)
    requires a >= 0 && b >= 0
    ensures GcdOf(a, b) >= 0
    ensures Divides(GcdOf(a, b), a) && Divides(GcdOf(a, b), b)
    ensures forall d :: Divides(d, a) && Divides(d, b) ==> Divides(d, GcdOf(a, b))
    decreases b
  {
    if b == 0 {
      assert a == 1 * a && b == 0 * a;
    } else {
      var r := JsRem(a, b);
      var q := a / b;
      assert a == q * b + r;
      GcdOfIsGcd(b, r);
      var g := GcdOf(b, r);
      DividesSum(g, b, r, q);
      forall d | Divides(d, a) && Divides(d, b) ensures Divides(d, g) {
        DividesDifference(d, b, r, q);
      }
    }
  }
  lemma {:induction false} GcdOfTestInputs()
    ensures GcdOf(100, 90) == 10
  {
    assert JsRem(100, 90) == 10 && JsRem(90, 10) == 0;
  }

  // ---- running the gcd machine ----

  function GcdMachineOf(n: GcdNames): Machine { Machine(Raw, GcdProgram(n)) }

  /** The three registers are different from each other and from the
      program counter and the flag. */
  predicate NamesApart(n: GcdNames)
  {
    && n.a != n.b && n.a != n.t && n.b != n.t
    && n.a != "pc" && n.b != "pc" && n.t != "pc"
    && n.a != "flag" && n.b != "flag" && n.t != "flag"
  }

  /** `pc` is at instruction `k` and `a`, `b` hold the numbers `x`, `y`. */
  predicate Holding(n: GcdNames, s: State, k: nat, x: int, y: int)
  {
    && "pc" in s.regs && s.regs["pc"] == Code(k) && "flag" in s.regs
    && n.a in s.regs && n.b in s.regs && n.t in s.regs
    && s.regs[n.a] == Data(Num(x)) && s.regs[n.b] == Data(Num(y))
  }

  /** Instructions executed from `test-b` until the machine halts. */
  function GcdSteps(a: int, b: int): nat
    decreases Abs(b)
  {
    if b == 0 then 4 else 6 + GcdSteps(b, JsRem(a, b))
  }

  /** Besides the registers, nothing changes: the stack, the vectors and the
      set of registers stay as they were. */
  predicate Unmoved(s: State, t: State)
  {
    t.stack == s.stack && t.mem == s.mem && t.regs.Keys == s.regs.Keys
  }

  /** `test(op("="), reg(b), constant(0))` sets the flag to whether `b` is 0. */
  lemma {:induction false} GcdTestStep(n: GcdNames, s: State, a: int, b: int)
    requires NamesApart(n) && Holding(n, s, 0, a, b)
    ensures var r := Step(GcdMachineOf(n), s);
      r.Next? && Holding(n, r.next, 1, a, b) && r.next.regs["flag"] == Data(Bool(b == 0)) && Unmoved(s, r.next)
  {
    var m := GcdMachineOf(n);
    RawApplyTwo(m, s, StrictEq, RegRef(n.b), Const(Num(0)), Num(b), Num(0));
    StepTest(m, s, 0, Data(Bool(b == 0)));
  }

  /** `branch(label(gcd-done))` jumps exactly when `b` was 0. */
  lemma {:induction false} GcdBranchStep(n: GcdNames, s: State, a: int, b: int)
    requires NamesApart(n) && Holding(n, s, 1, a, b) && s.regs["flag"] == Data(Bool(b == 0))
    ensures var r := Step(GcdMachineOf(n), s);
      r.Next? && Holding(n, r.next, if b == 0 then 6 else 2, a, b) && Unmoved(s, r.next)
  {
    StepBranch(GcdMachineOf(n), s, 1);
  }

  /** `assign(t, op(rem), reg(a), reg(b))`. */
  lemma {:induction false} GcdRemStep(n: GcdNames, s: State, a: int, b: int)
    requires NamesApart(n) && Holding(n, s, 2, a, b) && b != 0
    ensures var r := Step(GcdMachineOf(n), s);
      r.Next? && Holding(n, r.next, 3, a, b) && r.next.regs[n.t] == Data(Num(JsRem(a, b))) && Unmoved(s, r.next)
  {
    var m := GcdMachineOf(n);
    RawApplyTwo(m, s, Rem, RegRef(n.a), RegRef(n.b), Num(a), Num(b));
    StepAssign(m, s, 2, Data(Num(JsRem(a, b))));
  }

  /** `assign(a, reg(b))`. */
  lemma {:induction false} GcdMoveAStep(n: GcdNames, s: State, a: int, b: int, t: int)
    requires NamesApart(n) && Holding(n, s, 3, a, b) && s.regs[n.t] == Data(Num(t))
    ensures var r := Step(GcdMachineOf(n), s);
      r.Next? && Holding(n, r.next, 4, b, b) && r.next.regs[n.t] == Data(Num(t)) && Unmoved(s, r.next)
  {
    StepAssign(GcdMachineOf(n), s, 3, Data(Num(b)));
  }

  /** `assign(b, reg(t))`. */
  lemma {:induction false} GcdMoveBStep(n: GcdNames, s: State, a: int, b: int, t: int)
    requires NamesApart(n) && Holding(n, s, 4, a, b) && s.regs[n.t] == Data(Num(t))
    ensures var r := Step(GcdMachineOf(n), s);
      r.Next? && Holding(n, r.next, 5, a, t) && Unmoved(s, r.next)
  {
    StepAssign(GcdMachineOf(n), s, 4, Data(Num(t)));
  }

  /** `go_to(label(test-b))`. */
  lemma {:induction false} GcdJumpBackStep(n: GcdNames, s: State, a: int, b: int)
    requires NamesApart(n) && Holding(n, s, 5, a, b)
    ensures var r := Step(GcdMachineOf(n), s);
      r.Next? && Holding(n, r.next, 0, a, b) && Unmoved(s, r.next)
  {
    StepGotoLabel(GcdMachineOf(n), s, 5);
  }

  /** `perform(op(print), reg(a))` shows `a`, changes nothing else, and moves
      `pc` past the last instruction. */
  lemma {:induction false} GcdPrintStep(n: GcdNames, s: State, a: int, b: int)
    requires NamesApart(n) && Holding(n, s, 6, a, b)
    ensures var r := Step(GcdMachineOf(n), s);
      r.Next? && r.next == s.(regs := s.regs["pc" := Data(Null)])
  {
    var m := GcdMachineOf(n);
    RawApplyOne(m, s, Display, RegRef(n.a), Num(a));
    StepPerform(m, s, 6, Data(Num(a)), s);
  }

  /** With `b` zero: the test sets the flag, the branch jumps to `gcd-done`,
      `print` shows `a`, and the machine halts. */
  lemma {:induction false} GcdExit(n: GcdNames, s: State, a: int)
    requires NamesApart(n) && Holding(n, s, 0, a, 0)
    ensures var o := Exec(GcdMachineOf(n), s, 4);
      o.Halt? && o.final.regs[n.a] == Data(Num(a)) && Unmoved(s, o.final)
  {
    var m := GcdMachineOf(n);
    GcdTestStep(n, s, a, 0);
    var s1 := Step(m, s).next;
    ExecStep(m, s, s1, 3);
    GcdBranchStep(n, s1, a, 0);
    var s2 := Step(m, s1).next;
    ExecStep(m, s1, s2, 2);
    GcdPrintStep(n, s2, a, 0);
    var s3 := Step(m, s2).next;
    ExecStep(m, s2, s3, 1);
    assert Exec(m, s3, 1) == Halt(s3);
  }

  /** With `b` non-zero one round of the loop leaves `b` in `a` and the
      remainder in `b`, and returns to `test-b`. */
  lemma {:induction false} GcdRound(n: GcdNames, s: State, a: int, b: int)
    requires NamesApart(n) && Holding(n, s, 0, a, b) && b != 0
    ensures var o := Exec(GcdMachineOf(n), s, 6);
      o.Running? && Holding(n, o.current, 0, b, JsRem(a, b)) && Unmoved(s, o.current)
  {
    var m := GcdMachineOf(n);
    GcdTestStep(n, s, a, b);
    var s1 := Step(m, s).next;
    ExecStep(m, s, s1, 5);
    GcdBranchStep(n, s1, a, b);
    var s2 := Step(m, s1).next;
    ExecStep(m, s1, s2, 4);
    GcdLoopBody(n, s2, a, b);
  }

  /** The loop body after the branch: `t`, `a` and `b` are rotated and
      `go_to` returns to `test-b`. */
  lemma {:induction false} GcdLoopBody(n: GcdNames, s: State, a: int, b: int)
    requires NamesApart(n) && Holding(n, s, 2, a, b) && b != 0
    ensures var o := Exec(GcdMachineOf(n), s, 4);
      o.Running? && Holding(n, o.current, 0, b, JsRem(a, b)) && Unmoved(s, o.current)
  {
    var m := GcdMachineOf(n);
    var r := JsRem(a, b);
    GcdRemStep(n, s, a, b);
    var s1 := Step(m, s).next;
    ExecStep(m, s, s1, 3);
    GcdMoveAStep(n, s1, a, b, r);
    var s2 := Step(m, s1).next;
    ExecStep(m, s1, s2, 2);
    GcdMoveBStep(n, s2, b, b, r);
    var s3 := Step(m, s2).next;
    ExecStep(m, s2, s3, 1);
    GcdJumpBackStep(n, s3, b, r);
    var s4 := Step(m, s3).next;
    ExecStep(m, s3, s4, 0);
  }

  /** From `test-b` the machine halts after `GcdSteps(a, b)` instructions
      with `GcdOf(a, b)` in `a`. */
  lemma {:induction false} GcdRuns(n: GcdNames, s: State, a: int, b: int)
    requires NamesApart(n) && Holding(n, s, 0, a, b)
    ensures var o := Exec(GcdMachineOf(n), s, GcdSteps(a, b));
      o.Halt? && n.a in o.final.regs && o.final.regs[n.a] == Data(Num(GcdOf(a, b)))
    decreases Abs(b)
  {
    var m := GcdMachineOf(n);
    if b == 0 {
      GcdExit(n, s, a);
      assert GcdSteps(a, b) == 4 && GcdOf(a, b) == a;
    } else {
      var r := JsRem(a, b);
      var k := GcdSteps(b, r);
      GcdRound(n, s, a, b);
      var t := Exec(m, s, 6).current;
      GcdRuns(n, t, b, r);
      ExecCompose(m, s, 6, k);
      assert Resume(m, Exec(m, s, 6), k) == Exec(m, t, k);
      assert GcdSteps(a, b) == 6 + k && GcdOf(a, b) == GcdOf(b, r);
    }
  }

  // ---- the test script ----

  /** Admissible names keep the three registers apart from each other and
      from the built-in `pc`, `flag` and `free`. */
  lemma {:induction false} GcdNamesApart(n: GcdNames)
    requires GcdNamesOk(n)
    ensures NamesApart(n) && n.a != "free" && n.b != "free" && n.t != "free"
  {
    var r := GcdRegisters(n);
    assert r[0] == n.a && r[1] == n.b && r[2] == n.t;
    assert n.a in r && n.b in r && n.t in r;
    RawBuiltins();
  }

  /** `make_machine` followed by `set_register_contents` of `a` and `b`, as
      the test script does before `start`. */
  function GcdLoaded(n: GcdNames, a: int, b: int): Result<(Machine, State)>
  {
    var (m, s) :- MakeMachine(Raw, GcdRegisters(n), GcdOps(n), GcdText(n));
    var s1 :- SetRegisterContents(s, n.a, Data(Num(a)));
    var s2 :- SetRegisterContents(s1, n.b, Data(Num(b)));
    Ok((m, s2))
  }

  /** The gcd machine, loaded with any two numbers and started, halts with
      `GcdOf` of them in `a`. */
  lemma {:induction false} GcdComputes(n: GcdNames, a: int, b: int)
    requires GcdNamesOk(n)
    ensures GcdLoaded(n, a, b).Ok?
    ensures var o := Run(GcdLoaded(n, a, b).value.0, GcdLoaded(n, a, b).value.1, GcdSteps(a, b));
      o.Halt? && n.a in o.final.regs && o.final.regs[n.a] == Data(Num(GcdOf(a, b)))
  {
    GcdAssembles(n);
    GcdNamesApart(n);
    var (m, s) := MakeMachine(Raw, GcdRegisters(n), GcdOps(n), GcdText(n)).value;
    assert n.a in GcdRegisters(n) && n.b in GcdRegisters(n) && n.t in GcdRegisters(n);
    RawBuiltins();
    var s1 := SetRegisterContents(s, n.a, Data(Num(a))).value;
    var s2 := SetRegisterContents(s1, n.b, Data(Num(b))).value;
    assert GcdLoaded(n, a, b) == Ok((m, s2));
    var t := Start(m, s2).value;
    assert Holding(n, t, 0, a, b);
    GcdRuns(n, t, a, b);
  }

  /** test_cases_5_2.js:17-20: started with `a` = 100 and `b` = 90, the
      machine halts after sixteen instructions with 10 in `a`. */
  lemma {:induction false} GcdTestScript()
    ensures GcdLoaded(TestGcd, 100, 90).Ok?
    ensures var o := Run(GcdLoaded(TestGcd, 100, 90).value.0, GcdLoaded(TestGcd, 100, 90).value.1, 16);
      o.Halt? && "a" in o.final.regs && o.final.regs["a"] == Data(Num(10))
  {
    TestGcdNamesOk();
    GcdComputes(TestGcd, 100, 90);
    GcdOfTestInputs();
    assert JsRem(100, 90) == 10 && JsRem(90, 10) == 0;
    assert GcdSteps(100, 90) == 16;
  }
}
