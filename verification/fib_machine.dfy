/**
  The recursive Fibonacci controller of test_cases_5_2.js:22-65: each call
  saves its return point `continue` and its argument `n` on the stack,
  computes Fib(n-1) and Fib(n-2) by jumping back to `fib-loop`, and returns
  through `go_to(reg(continue))`.  Run under the raw draft.
 */
module FibMachine {
  import opened HostData
  import opened Errors
  import opened Values
  import opened HostOps
  import opened Instructions
  import opened Assembler
  import opened RegisterMachine
  import opened MachineLaws
  import opened Controllers

  datatype FibNames = FibNames(cont: string, n: string, val: string,
                               less: string, minus: string, plus: string, show: string,
                               loop: string, after1: string, after2: string, immediate: string, done: string)

  /** The names test_cases_5_2.js uses. */
  const TestFib := FibNames("continue", "n", "val", "<", "-", "+", "print",
                            "fib-loop", "afterfib-n-1", "afterfib-n-2", "immediate-answer", "fib-done")

  function FibRegisters(w: FibNames): seq<string> { [w.cont, w.n, w.val] }

  function FibOps(w: FibNames): seq<(string, Op)>
  {
    [(w.less, Primitive(Less)), (w.minus, Primitive(Sub)), (w.plus, Primitive(Add)), (w.show, Primitive(Display))]
  }

  function FibLabelNames(w: FibNames): seq<string> { [w.loop, w.after1, w.after2, w.immediate, w.done] }

  // ---- the controller text, block by block ----

  /** Before `fib-loop`: the final return point. */
  function StartText(w: FibNames): seq<Datum>
  {
    [AssignText(w.cont, LabelText(w.done))]
  }

  /** `fib-loop`: answer directly below 2, otherwise set up the call for n-1. */
  function LoopText(w: FibNames): seq<Datum>
  {
    [TestText(OpAppText(w.less, [RegText(w.n), ConstantText(Num(2))])),
     BranchText(LabelText(w.immediate)),
     SaveText(w.cont),
     AssignText(w.cont, LabelText(w.after1)),
     SaveText(w.n),
     AssignText(w.n, OpAppText(w.minus, [RegText(w.n), ConstantText(Num(1))])),
     GoToText(LabelText(w.loop))]
  }

  /** `afterfib-n-1`: set up the call for n-2, keeping Fib(n-1) on the stack. */
  function After1Text(w: FibNames): seq<Datum>
  {
    [RestoreText(w.n),
     RestoreText(w.cont),
     AssignText(w.n, OpAppText(w.minus, [RegText(w.n), ConstantText(Num(2))])),
     SaveText(w.cont),
     AssignText(w.cont, LabelText(w.after2)),
     SaveText(w.val),
     GoToText(LabelText(w.loop))]
  }

  /** `afterfib-n-2`: add the two answers and return. */
  function After2Text(w: FibNames): seq<Datum>
  {
    [AssignText(w.n, RegText(w.val)),
     RestoreText(w.val),
     RestoreText(w.cont),
     AssignText(w.val, OpAppText(w.plus, [RegText(w.val), RegText(w.n)])),
     GoToText(RegText(w.cont))]
  }

  /** `immediate-answer`: Fib(n) = n. */
  function ImmediateText(w: FibNames): seq<Datum>
  {
    [AssignText(w.val, RegText(w.n)),
     GoToText(RegText(w.cont))]
  }

  /** `fib-done`. */
  function DoneText(w: FibNames): seq<Datum>
  {
    [PerformText(OpAppText(w.show, [RegText(w.val)]))]
  }

  /** The whole text: each label followed by its block. */
  function FibText(w: FibNames): seq<Datum>
  {
    StartText(w) + ([Str(w.loop)] + (LoopText(w) + ([Str(w.after1)] + (After1Text(w) +
      ([Str(w.after2)] + (After2Text(w) + ([Str(w.immediate)] + (ImmediateText(w) +
      ([Str(w.done)] + DoneText(w))))))))))
  }

  // ---- what the blocks assemble to ----

  const LoopAt := 1
  const After1At := 8
  const After2At := 15
  const ImmediateAt := 20
  const DoneAt := 22

  function StartProgram(w: FibNames): seq<Instr>
  {
    [Assign(w.cont, Simple(LabelRef(DoneAt)))]
  }

  function LoopProgram(w: FibNames): seq<Instr>
  {
    [Test(OpApp(Primitive(Less), [RegRef(w.n), Const(Num(2))])),
     Branch(ImmediateAt),
     Save(w.cont),
     Assign(w.cont, Simple(LabelRef(After1At))),
     Save(w.n),
     Assign(w.n, Apply(OpApp(Primitive(Sub), [RegRef(w.n), Const(Num(1))]))),
     GotoLabel(LoopAt)]
  }

  function After1Program(w: FibNames): seq<Instr>
  {
    [Restore(w.n),
     Restore(w.cont),
     Assign(w.n, Apply(OpApp(Primitive(Sub), [RegRef(w.n), Const(Num(2))]))),
     Save(w.cont),
     Assign(w.cont, Simple(LabelRef(After2At))),
     Save(w.val),
     GotoLabel(LoopAt)]
  }

  function After2Program(w: FibNames): seq<Instr>
  {
    [Assign(w.n, Simple(RegRef(w.val))),
     Restore(w.val),
     Restore(w.cont),
     Assign(w.val, Apply(OpApp(Primitive(Add), [RegRef(w.val), RegRef(w.n)]))),
     GotoReg(w.cont)]
  }

  function ImmediateProgram(w: FibNames): seq<Instr>
  {
    [Assign(w.val, Simple(RegRef(w.n))),
     GotoReg(w.cont)]
  }

  function DoneProgram(w: FibNames): seq<Instr>
  {
    [Perform(OpApp(Primitive(Display), [RegRef(w.val)]))]
  }

  function FibProgram(w: FibNames): seq<Instr>
  {
    StartProgram(w) + (LoopProgram(w) + (After1Program(w) + (After2Program(w) +
      (ImmediateProgram(w) + DoneProgram(w)))))
  }

  /** The label table: `fib-loop` at 1, `afterfib-n-1` at 8, `afterfib-n-2`
      at 15, `immediate-answer` at 20, `fib-done` at 22. */
  function FibLabels(w: FibNames): LabelTable
  {
    [(Str(w.loop), LoopAt), (Str(w.after1), After1At), (Str(w.after2), After2At),
     (Str(w.immediate), ImmediateAt), (Str(w.done), DoneAt)]
  }

  // ---- admissible names ----

  predicate Distinct(xs: seq<string>)
  {
    forall i, j :: 0 <= i < j < |xs| ==> xs[i] != xs[j]
  }

  /** Fresh registers, operations found under their names, and five
      different labels. */
  predicate FibNamesOk(w: FibNames)
  {
    FreshNames(BuiltinTable(Raw), FibRegisters(w)) && OpsFound(FibOps(w)) && Distinct(FibLabelNames(w))
  }

  /** The test's names are admissible. */
  lemma {:induction false} TestFibNamesOk()
    ensures FibNamesOk(TestFib)
  {
    TestFibRegisters();
    TestFibOps();
    var l := FibLabelNames(TestFib);
    assert l == ["fib-loop", "afterfib-n-1", "afterfib-n-2", "immediate-answer", "fib-done"];
  }

  lemma {:induction false} TestFibRegisters()
    ensures FreshNames(BuiltinTable(Raw), FibRegisters(TestFib))
  {
    var r := BuiltinRegisters(Raw);
    assert r == ["pc", "flag", "the_heads", "the_tails", "new_heads", "new_tails",
                 "free", "scan", "old", "new", "relocate_continue", "temp", "oldhr"];
    forall x | x in FibRegisters(TestFib) ensures x !in BuiltinTable(Raw) {
      assert x !in r;
    }
  }

  /** `<`, `-` and `print` are new operations, and `+` is also the built-in
      addition. */
  lemma {:induction false} TestFibOps()
    ensures OpsFound(FibOps(TestFib))
  {
    var ops := FibOps(TestFib);
    NotBuiltinOp(ops, 0);
    NotBuiltinOp(ops, 1);
    NotBuiltinOp(ops, 3);
    UserOpFound(ops, 0);
    UserOpFound(ops, 1);
    UserOpFound(ops, 3);
    BuiltinOpsShadow(ops);
    forall i | 0 <= i < |ops| ensures LookupPrim(OpsTable(ops), Str(ops[i].0)) == Ok(ops[i].1) {
      if i == 0 {} else if i == 1 {} else if i == 2 {} else {}
    }
  }

  lemma {:induction false} NotBuiltinOp(ops: seq<(string, Op)>, i: nat)
    requires ops == FibOps(TestFib) && i < |ops| && i != 2
    ensures forall j :: 0 <= j < |BuiltinOps()| ==> BuiltinOps()[j].0 != Str(ops[i].0)
    ensures forall j :: 0 <= j < i ==> ops[j].0 != ops[i].0
  {
    forall j | 0 <= j < |BuiltinOps()| ensures BuiltinOps()[j].0 != Str(ops[i].0) {
      assert |BuiltinOps()[j].0.s| > 1 || BuiltinOps()[j].0.s == "+";
    }
  }

  // ---- labels ----

  function NoLabels(b: seq<Datum>): bool { forall i :: 0 <= i < |b| ==> !b[i].Str? }

  /** Where five labels land in a text of six label-free blocks of sizes
      1, 7, 7, 5, 2 and any. */
  lemma {:induction false} LabelLayout(b0: seq<Datum>, b1: seq<Datum>, b2: seq<Datum>, b3: seq<Datum>,
                                       b4: seq<Datum>, b5: seq<Datum>, l1: Datum, l2: Datum, l3: Datum,
                                       l4: Datum, l5: Datum)
    requires NoLabels(b0) && NoLabels(b1) && NoLabels(b2) && NoLabels(b3) && NoLabels(b4) && NoLabels(b5)
    requires |b0| == 1 && |b1| == 7 && |b2| == 7 && |b3| == 5 && |b4| == 2
    requires l1.Str? && l2.Str? && l3.Str? && l4.Str? && l5.Str?
    ensures ExtractLabels(b0 + ([l1] + (b1 + ([l2] + (b2 + ([l3] + (b3 + ([l4] + (b4 + ([l5] + b5)))))))))) ==
      (b0 + (b1 + (b2 + (b3 + (b4 + b5)))), [(l1, 1), (l2, 8), (l3, 15), (l4, 20), (l5, 22)])
  {
    LabelLayoutTail(b3, b4, b5, l4, l5);
    ExtractLabelsBlock(b2, l3, b3 + ([l4] + (b4 + ([l5] + b5))));
    assert ShiftBy([(l3, 0)] + [(l4, 5), (l5, 7)], 7) == [(l3, 7), (l4, 12), (l5, 14)];
    ExtractLabelsBlock(b1, l2, b2 + ([l3] + (b3 + ([l4] + (b4 + ([l5] + b5))))));
    assert ShiftBy([(l2, 0)] + [(l3, 7), (l4, 12), (l5, 14)], 7) == [(l2, 7), (l3, 14), (l4, 19), (l5, 21)];
    ExtractLabelsBlock(b0, l1, b1 + ([l2] + (b2 + ([l3] + (b3 + ([l4] + (b4 + ([l5] + b5))))))));
    assert ShiftBy([(l1, 0)] + [(l2, 7), (l3, 14), (l4, 19), (l5, 21)], 1) ==
      [(l1, 1), (l2, 8), (l3, 15), (l4, 20), (l5, 22)];
  }

  lemma {:induction false} LabelLayoutTail(b3: seq<Datum>, b4: seq<Datum>, b5: seq<Datum>, l4: Datum, l5: Datum)
    requires NoLabels(b3) && NoLabels(b4) && NoLabels(b5)
    requires |b3| == 5 && |b4| == 2 && l4.Str? && l5.Str?
    ensures ExtractLabels(b3 + ([l4] + (b4 + ([l5] + b5)))) == (b3 + (b4 + b5), [(l4, 5), (l5, 7)])
  {
    ExtractLabelsNone(b5);
    ExtractLabelsBlock(b4, l5, b5);
    assert [(l5, 0)] + [] == [(l5, 0)];
    assert ShiftBy([(l5, 0)], 2) == [(l5, 2)];
    ExtractLabelsBlock(b3, l4, b4 + ([l5] + b5));
    assert ShiftBy([(l4, 0)] + [(l5, 2)], 5) == [(l4, 5), (l5, 7)];
  }

  /** The labels of the fib text. */
  lemma {:induction false} FibTextLabels(w: FibNames)
    ensures ExtractLabels(FibText(w)) ==
      (StartText(w) + (LoopText(w) + (After1Text(w) + (After2Text(w) + (ImmediateText(w) + DoneText(w))))),
       FibLabels(w))
  {
    LabelLayout(StartText(w), LoopText(w), After1Text(w), After2Text(w), ImmediateText(w), DoneText(w),
                Str(w.loop), Str(w.after1), Str(w.after2), Str(w.immediate), Str(w.done));
  }

  /** Five different labels are each found where they stand. */
  lemma {:induction false} FibLabelsFound(w: FibNames)
    requires Distinct(FibLabelNames(w))
    ensures LookupLabel(FibLabels(w), Str(w.loop)) == Ok(LoopAt)
    ensures LookupLabel(FibLabels(w), Str(w.after1)) == Ok(After1At)
    ensures LookupLabel(FibLabels(w), Str(w.after2)) == Ok(After2At)
    ensures LookupLabel(FibLabels(w), Str(w.immediate)) == Ok(ImmediateAt)
    ensures LookupLabel(FibLabels(w), Str(w.done)) == Ok(DoneAt)
  {
    var t := FibLabels(w);
    var l := FibLabelNames(w);
    assert l[0] == w.loop && l[1] == w.after1 && l[2] == w.after2 && l[3] == w.immediate && l[4] == w.done;
    AssocFirstMatch(Str(w.loop), t, 0);
    AssocFirstMatch(Str(w.after1), t, 1);
    AssocFirstMatch(Str(w.after2), t, 2);
    AssocFirstMatch(Str(w.immediate), t, 3);
    AssocFirstMatch(Str(w.done), t, 4);
  }

  // ---- resolving the blocks ----

  /** What the blocks need: the three registers allocated, the four
      operations found, and the label table of the text. */
  predicate FibScope(w: FibNames, regs: set<string>, ops: seq<(Datum, Op)>)
  {
    && w.cont in regs && w.n in regs && w.val in regs
    && LookupPrim(ops, Str(w.less)) == Ok(Primitive(Less))
    && LookupPrim(ops, Str(w.minus)) == Ok(Primitive(Sub))
    && LookupPrim(ops, Str(w.plus)) == Ok(Primitive(Add))
    && LookupPrim(ops, Str(w.show)) == Ok(Primitive(Display))
    && LookupLabel(FibLabels(w), Str(w.loop)) == Ok(LoopAt)
    && LookupLabel(FibLabels(w), Str(w.after1)) == Ok(After1At)
    && LookupLabel(FibLabels(w), Str(w.after2)) == Ok(After2At)
    && LookupLabel(FibLabels(w), Str(w.immediate)) == Ok(ImmediateAt)
    && LookupLabel(FibLabels(w), Str(w.done)) == Ok(DoneAt)
  }

  lemma {:induction false} StartResolves(w: FibNames, regs: set<string>, ops: seq<(Datum, Op)>)
    requires FibScope(w, regs, ops)
    ensures MakeAll(StartText(w), FibLabels(w), regs, ops) == Ok(StartProgram(w))
  {
    var labels := FibLabels(w);
    PrimitiveTextsResolve(w.done, Num(0), labels, regs);
    AssignSimpleResolves(w.cont, LabelText(w.done), w.done, LabelRef(DoneAt), labels, regs, ops);
    MakeAllOne(AssignText(w.cont, LabelText(w.done)), Assign(w.cont, Simple(LabelRef(DoneAt))), labels, regs, ops);
  }

  /** The test and the set-up of the first recursive call. */
  lemma {:induction false} LoopHeadResolves(w: FibNames, regs: set<string>, ops: seq<(Datum, Op)>)
    requires FibScope(w, regs, ops)
    ensures var labels := FibLabels(w);
      && MakeExecution(TestText(OpAppText(w.less, [RegText(w.n), ConstantText(Num(2))])), labels, regs, ops) ==
         Ok(Test(OpApp(Primitive(Less), [RegRef(w.n), Const(Num(2))])))
      && MakeExecution(BranchText(LabelText(w.immediate)), labels, regs, ops) == Ok(Branch(ImmediateAt))
      && MakeExecution(SaveText(w.cont), labels, regs, ops) == Ok(Save(w.cont))
      && MakeExecution(AssignText(w.cont, LabelText(w.after1)), labels, regs, ops) ==
         Ok(Assign(w.cont, Simple(LabelRef(After1At))))
  {
    var labels := FibLabels(w);
    PrimitiveTextsResolve(w.n, Num(2), labels, regs);
    TwoOperands(RegText(w.n), ConstantText(Num(2)), RegRef(w.n), Const(Num(2)), labels, regs);
    TestResolves(w.less, [RegText(w.n), ConstantText(Num(2))], Less, [RegRef(w.n), Const(Num(2))], labels, regs, ops);
    JumpTextsResolve(w.immediate, labels, regs, ops);
    StackTextsResolve(w.cont, labels, regs, ops);
    PrimitiveTextsResolve(w.after1, Num(0), labels, regs);
    AssignSimpleResolves(w.cont, LabelText(w.after1), w.after1, LabelRef(After1At), labels, regs, ops);
  }

  lemma {:induction false} LoopTailResolves(w: FibNames, regs: set<string>, ops: seq<(Datum, Op)>)
    requires FibScope(w, regs, ops)
    ensures var labels := FibLabels(w);
      && MakeExecution(SaveText(w.n), labels, regs, ops) == Ok(Save(w.n))
      && MakeExecution(AssignText(w.n, OpAppText(w.minus, [RegText(w.n), ConstantText(Num(1))])), labels, regs, ops) ==
         Ok(Assign(w.n, Apply(OpApp(Primitive(Sub), [RegRef(w.n), Const(Num(1))]))))
      && MakeExecution(GoToText(LabelText(w.loop)), labels, regs, ops) == Ok(GotoLabel(LoopAt))
  {
    var labels := FibLabels(w);
    StackTextsResolve(w.n, labels, regs, ops);
    PrimitiveTextsResolve(w.n, Num(1), labels, regs);
    TwoOperands(RegText(w.n), ConstantText(Num(1)), RegRef(w.n), Const(Num(1)), labels, regs);
    AssignOpResolves(w.n, w.minus, [RegText(w.n), ConstantText(Num(1))], Sub, [RegRef(w.n), Const(Num(1))],
                     labels, regs, ops);
    JumpTextsResolve(w.loop, labels, regs, ops);
  }

  lemma {:induction false} LoopResolves(w: FibNames, regs: set<string>, ops: seq<(Datum, Op)>)
    requires FibScope(w, regs, ops)
    ensures MakeAll(LoopText(w), FibLabels(w), regs, ops) == Ok(LoopProgram(w))
  {
    LoopHeadResolves(w, regs, ops);
    LoopTailResolves(w, regs, ops);
    MakeAllSeven(TestText(OpAppText(w.less, [RegText(w.n), ConstantText(Num(2))])),
                 BranchText(LabelText(w.immediate)),
                 SaveText(w.cont),
                 AssignText(w.cont, LabelText(w.after1)),
                 SaveText(w.n),
                 AssignText(w.n, OpAppText(w.minus, [RegText(w.n), ConstantText(Num(1))])),
                 GoToText(LabelText(w.loop)),
                 Test(OpApp(Primitive(Less), [RegRef(w.n), Const(Num(2))])),
                 Branch(ImmediateAt),
                 Save(w.cont),
                 Assign(w.cont, Simple(LabelRef(After1At))),
                 Save(w.n),
                 Assign(w.n, Apply(OpApp(Primitive(Sub), [RegRef(w.n), Const(Num(1))]))),
                 GotoLabel(LoopAt),
                 FibLabels(w), regs, ops);
  }

  /** Back from the first call: restore, set up the second call. */
  lemma {:induction false} After1HeadResolves(w: FibNames, regs: set<string>, ops: seq<(Datum, Op)>)
    requires FibScope(w, regs, ops)
    ensures var labels := FibLabels(w);
      && MakeExecution(RestoreText(w.n), labels, regs, ops) == Ok(Restore(w.n))
      && MakeExecution(RestoreText(w.cont), labels, regs, ops) == Ok(Restore(w.cont))
      && MakeExecution(AssignText(w.n, OpAppText(w.minus, [RegText(w.n), ConstantText(Num(2))])), labels, regs, ops) ==
         Ok(Assign(w.n, Apply(OpApp(Primitive(Sub), [RegRef(w.n), Const(Num(2))]))))
  {
    var labels := FibLabels(w);
    StackTextsResolve(w.n, labels, regs, ops);
    StackTextsResolve(w.cont, labels, regs, ops);
    PrimitiveTextsResolve(w.n, Num(2), labels, regs);
    TwoOperands(RegText(w.n), ConstantText(Num(2)), RegRef(w.n), Const(Num(2)), labels, regs);
    AssignOpResolves(w.n, w.minus, [RegText(w.n), ConstantText(Num(2))], Sub, [RegRef(w.n), Const(Num(2))],
                     labels, regs, ops);
  }

  lemma {:induction false} After1TailResolves(w: FibNames, regs: set<string>, ops: seq<(Datum, Op)>)
    requires FibScope(w, regs, ops)
    ensures var labels := FibLabels(w);
      && MakeExecution(SaveText(w.cont), labels, regs, ops) == Ok(Save(w.cont))
      && MakeExecution(AssignText(w.cont, LabelText(w.after2)), labels, regs, ops) ==
         Ok(Assign(w.cont, Simple(LabelRef(After2At))))
      && MakeExecution(SaveText(w.val), labels, regs, ops) == Ok(Save(w.val))
      && MakeExecution(GoToText(LabelText(w.loop)), labels, regs, ops) == Ok(GotoLabel(LoopAt))
  {
    var labels := FibLabels(w);
    StackTextsResolve(w.cont, labels, regs, ops);
    PrimitiveTextsResolve(w.after2, Num(0), labels, regs);
    AssignSimpleResolves(w.cont, LabelText(w.after2), w.after2, LabelRef(After2At), labels, regs, ops);
    StackTextsResolve(w.val, labels, regs, ops);
    JumpTextsResolve(w.loop, labels, regs, ops);
  }

  lemma {:induction false} After1Resolves(w: FibNames, regs: set<string>, ops: seq<(Datum, Op)>)
    requires FibScope(w, regs, ops)
    ensures MakeAll(After1Text(w), FibLabels(w), regs, ops) == Ok(After1Program(w))
  {
    After1HeadResolves(w, regs, ops);
    After1TailResolves(w, regs, ops);
    MakeAllSeven(RestoreText(w.n),
                 RestoreText(w.cont),
                 AssignText(w.n, OpAppText(w.minus, [RegText(w.n), ConstantText(Num(2))])),
                 SaveText(w.cont),
                 AssignText(w.cont, LabelText(w.after2)),
                 SaveText(w.val),
                 GoToText(LabelText(w.loop)),
                 Restore(w.n),
                 Restore(w.cont),
                 Assign(w.n, Apply(OpApp(Primitive(Sub), [RegRef(w.n), Const(Num(2))]))),
                 Save(w.cont),
                 Assign(w.cont, Simple(LabelRef(After2At))),
                 Save(w.val),
                 GotoLabel(LoopAt),
                 FibLabels(w), regs, ops);
  }

  /** Back from the second call: add and return. */
  lemma {:induction false} After2HeadResolves(w: FibNames, regs: set<string>, ops: seq<(Datum, Op)>)
    requires FibScope(w, regs, ops)
    ensures var labels := FibLabels(w);
      && MakeExecution(AssignText(w.n, RegText(w.val)), labels, regs, ops) == Ok(Assign(w.n, Simple(RegRef(w.val))))
      && MakeExecution(RestoreText(w.val), labels, regs, ops) == Ok(Restore(w.val))
      && MakeExecution(RestoreText(w.cont), labels, regs, ops) == Ok(Restore(w.cont))
  {
    var labels := FibLabels(w);
    PrimitiveTextsResolve(w.val, Num(0), labels, regs);
    AssignSimpleResolves(w.n, RegText(w.val), w.val, RegRef(w.val), labels, regs, ops);
    StackTextsResolve(w.val, labels, regs, ops);
    StackTextsResolve(w.cont, labels, regs, ops);
  }

  lemma {:induction false} After2TailResolves(w: FibNames, regs: set<string>, ops: seq<(Datum, Op)>)
    requires FibScope(w, regs, ops)
    ensures var labels := FibLabels(w);
      && MakeExecution(AssignText(w.val, OpAppText(w.plus, [RegText(w.val), RegText(w.n)])), labels, regs, ops) ==
         Ok(Assign(w.val, Apply(OpApp(Primitive(Add), [RegRef(w.val), RegRef(w.n)]))))
      && MakeExecution(GoToText(RegText(w.cont)), labels, regs, ops) == Ok(GotoReg(w.cont))
  {
    var labels := FibLabels(w);
    PrimitiveTextsResolve(w.val, Num(0), labels, regs);
    PrimitiveTextsResolve(w.n, Num(0), labels, regs);
    TwoOperands(RegText(w.val), RegText(w.n), RegRef(w.val), RegRef(w.n), labels, regs);
    AssignOpResolves(w.val, w.plus, [RegText(w.val), RegText(w.n)], Add, [RegRef(w.val), RegRef(w.n)],
                     labels, regs, ops);
    JumpTextsResolve(w.cont, labels, regs, ops);
  }

  lemma {:induction false} After2Resolves(w: FibNames, regs: set<string>, ops: seq<(Datum, Op)>)
    requires FibScope(w, regs, ops)
    ensures MakeAll(After2Text(w), FibLabels(w), regs, ops) == Ok(After2Program(w))
  {
    After2HeadResolves(w, regs, ops);
    After2TailResolves(w, regs, ops);
    MakeAllFive(AssignText(w.n, RegText(w.val)),
                RestoreText(w.val),
                RestoreText(w.cont),
                AssignText(w.val, OpAppText(w.plus, [RegText(w.val), RegText(w.n)])),
                GoToText(RegText(w.cont)),
                Assign(w.n, Simple(RegRef(w.val))),
                Restore(w.val),
                Restore(w.cont),
                Assign(w.val, Apply(OpApp(Primitive(Add), [RegRef(w.val), RegRef(w.n)]))),
                GotoReg(w.cont),
                FibLabels(w), regs, ops);
  }

  lemma {:induction false} ImmediateResolves(w: FibNames, regs: set<string>, ops: seq<(Datum, Op)>)
    requires FibScope(w, regs, ops)
    ensures MakeAll(ImmediateText(w), FibLabels(w), regs, ops) == Ok(ImmediateProgram(w))
  {
    var labels := FibLabels(w);
    PrimitiveTextsResolve(w.n, Num(0), labels, regs);
    AssignSimpleResolves(w.val, RegText(w.n), w.n, RegRef(w.n), labels, regs, ops);
    JumpTextsResolve(w.cont, labels, regs, ops);
    MakeAllTwo(AssignText(w.val, RegText(w.n)), GoToText(RegText(w.cont)),
               Assign(w.val, Simple(RegRef(w.n))), GotoReg(w.cont), labels, regs, ops);
  }

  lemma {:induction false} DoneResolves(w: FibNames, regs: set<string>, ops: seq<(Datum, Op)>)
    requires FibScope(w, regs, ops)
    ensures MakeAll(DoneText(w), FibLabels(w), regs, ops) == Ok(DoneProgram(w))
  {
    var labels := FibLabels(w);
    PrimitiveTextsResolve(w.val, Num(0), labels, regs);
    OneOperand(RegText(w.val), RegRef(w.val), labels, regs);
    TestResolves(w.show, [RegText(w.val)], Display, [RegRef(w.val)], labels, regs, ops);
    MakeAllOne(PerformText(OpAppText(w.show, [RegText(w.val)])), Perform(OpApp(Primitive(Display), [RegRef(w.val)])),
               labels, regs, ops);
  }

  /** The instructions of the fib text resolve, block by block, to
      `FibProgram`. */
  lemma {:induction false} FibInstructionsResolve(w: FibNames, regs: set<string>, ops: seq<(Datum, Op)>)
    requires FibScope(w, regs, ops)
    ensures MakeAll(StartText(w) + (LoopText(w) + (After1Text(w) + (After2Text(w) + (ImmediateText(w) + DoneText(w))))),
                    FibLabels(w), regs, ops) == Ok(FibProgram(w))
  {
    var labels := FibLabels(w);
    StartResolves(w, regs, ops);
    LoopResolves(w, regs, ops);
    After1Resolves(w, regs, ops);
    After2Resolves(w, regs, ops);
    ImmediateResolves(w, regs, ops);
    DoneResolves(w, regs, ops);
    MakeAllAppend(ImmediateText(w), DoneText(w), ImmediateProgram(w), DoneProgram(w), labels, regs, ops);
    MakeAllAppend(After2Text(w), ImmediateText(w) + DoneText(w),
                  After2Program(w), ImmediateProgram(w) + DoneProgram(w), labels, regs, ops);
    MakeAllAppend(After1Text(w), After2Text(w) + (ImmediateText(w) + DoneText(w)),
                  After1Program(w), After2Program(w) + (ImmediateProgram(w) + DoneProgram(w)), labels, regs, ops);
    MakeAllAppend(LoopText(w), After1Text(w) + (After2Text(w) + (ImmediateText(w) + DoneText(w))),
                  LoopProgram(w), After1Program(w) + (After2Program(w) + (ImmediateProgram(w) + DoneProgram(w))),
                  labels, regs, ops);
    MakeAllAppend(StartText(w), LoopText(w) + (After1Text(w) + (After2Text(w) + (ImmediateText(w) + DoneText(w)))),
                  StartProgram(w), LoopProgram(w) + (After1Program(w) + (After2Program(w) + (ImmediateProgram(w) + DoneProgram(w)))),
                  labels, regs, ops);
  }

  /** With admissible names, `make_machine` accepts the fib controller:
      the program is `FibProgram` and the three registers start
      unassigned beside the built-in ones. */
  lemma {:induction false} FibAssembles(w: FibNames)
    requires FibNamesOk(w)
    ensures var r := MakeMachine(Raw, FibRegisters(w), FibOps(w), FibText(w));
      && r.Ok? && r.value.0 == Machine(Raw, FibProgram(w))
      && r.value.1 == State(AllocateRegisters(BuiltinTable(Raw), FibRegisters(w)).value, [], map[])
  {
    var regs := AllocateRegisters(BuiltinTable(Raw), FibRegisters(w)).value;
    FibTextLabels(w);
    FibScopeHolds(w);
    FibInstructionsResolve(w, regs.Keys, OpsTable(FibOps(w)));
  }

  /** Admissible names put everything the fib text refers to in scope. */
  lemma {:induction false} FibScopeHolds(w: FibNames)
    requires FibNamesOk(w)
    ensures FibScope(w, AllocateRegisters(BuiltinTable(Raw), FibRegisters(w)).value.Keys, OpsTable(FibOps(w)))
  {
    assert w.cont in FibRegisters(w) && w.n in FibRegisters(w) && w.val in FibRegisters(w);
    var fs := FibOps(w);
    assert fs[0] == (w.less, Primitive(Less)) && fs[1] == (w.minus, Primitive(Sub));
    assert fs[2] == (w.plus, Primitive(Add)) && fs[3] == (w.show, Primitive(Display));
    FibLabelsFound(w);
  }

  // ---- the reference: Fibonacci numbers ----

  /** `Fib(n) = n` below 2, otherwise the sum of the two before, as the
      controller's comments state it. */
  function FibOf(k: int): int
    decreases if k < 0 then 0 else k
  {
    if k < 2 then k else FibOf(k - 1) + FibOf(k - 2)
  }

  // ---- running the controller ----

  function FibMachineOf(w: FibNames): Machine { Machine(Raw, FibProgram(w)) }

  /** The three registers differ from each other and from `pc` and `flag`. */
  predicate FibApart(w: FibNames)
  {
    && w.cont != w.n && w.cont != w.val && w.n != w.val
    && w.cont != "pc" && w.n != "pc" && w.val != "pc"
    && w.cont != "flag" && w.n != "flag" && w.val != "flag"
  }

  predicate FibRegs(w: FibNames, s: State)
  {
    "pc" in s.regs && "flag" in s.regs && w.cont in s.regs && w.n in s.regs && w.val in s.regs
  }

  /** What the controller looks at: its registers and the stack. */
  datatype FibView = FibView(pc: Value, flag: Value, cont: Value, n: Value, val: Value, stack: seq<Value>)

  function View(w: FibNames, s: State): FibView
    requires FibRegs(w, s)
  {
    FibView(s.regs["pc"], s.regs["flag"], s.regs[w.cont], s.regs[w.n], s.regs[w.val], s.stack)
  }

  /** The vectors and the set of registers stay as they were. */
  predicate Kept(s: State, t: State)
  {
    t.mem == s.mem && t.regs.Keys == s.regs.Keys
  }

  /** One step of the fib machine from `s`, seen through `View`. */
  predicate StepsTo(w: FibNames, s: State, v: FibView)
    requires FibRegs(w, s)
  {
    var r := Step(FibMachineOf(w), s);
    r.Next? && Kept(s, r.next) && View(w, r.next) == v
  }

  // `fib-loop`, instructions 1 to 7

  lemma {:induction false} FibTestStep(w: FibNames, s: State, x: int)
    requires FibApart(w) && FibRegs(w, s) && s.regs["pc"] == Code(1) && s.regs[w.n] == Data(Num(x))
    ensures StepsTo(w, s, View(w, s).(pc := Code(2), flag := Data(Bool(x < 2))))
  {
    var m := FibMachineOf(w);
    RawApplyTwo(m, s, Less, RegRef(w.n), Const(Num(2)), Num(x), Num(2));
    StepTest(m, s, 1, Data(Bool(x < 2)));
  }

  lemma {:induction false} FibBranchStep(w: FibNames, s: State, b: bool)
    requires FibApart(w) && FibRegs(w, s) && s.regs["pc"] == Code(2) && s.regs["flag"] == Data(Bool(b))
    ensures StepsTo(w, s, View(w, s).(pc := if b then Code(ImmediateAt) else Code(3)))
  {
    StepBranch(FibMachineOf(w), s, 2);
  }

  lemma {:induction false} FibSaveContStep(w: FibNames, s: State)
    requires FibApart(w) && FibRegs(w, s) && s.regs["pc"] == Code(3)
    ensures StepsTo(w, s, View(w, s).(pc := Code(4), stack := [s.regs[w.cont]] + s.stack))
  {
    StepSave(FibMachineOf(w), s, 3);
  }

  lemma {:induction false} FibMarkAfter1Step(w: FibNames, s: State)
    requires FibApart(w) && FibRegs(w, s) && s.regs["pc"] == Code(4)
    ensures StepsTo(w, s, View(w, s).(pc := Code(5), cont := Code(After1At)))
  {
    StepAssign(FibMachineOf(w), s, 4, Code(After1At));
  }

  lemma {:induction false} FibSaveNStep(w: FibNames, s: State)
    requires FibApart(w) && FibRegs(w, s) && s.regs["pc"] == Code(5)
    ensures StepsTo(w, s, View(w, s).(pc := Code(6), stack := [s.regs[w.n]] + s.stack))
  {
    StepSave(FibMachineOf(w), s, 5);
  }

  lemma {:induction false} FibDecrementStep(w: FibNames, s: State, x: int)
    requires FibApart(w) && FibRegs(w, s) && s.regs["pc"] == Code(6) && s.regs[w.n] == Data(Num(x))
    ensures StepsTo(w, s, View(w, s).(pc := Code(7), n := Data(Num(x - 1))))
  {
    var m := FibMachineOf(w);
    RawApplyTwo(m, s, Sub, RegRef(w.n), Const(Num(1)), Num(x), Num(1));
    StepAssign(m, s, 6, Data(Num(x - 1)));
  }

  lemma {:induction false} FibLoopJumpStep(w: FibNames, s: State, k: nat)
    requires FibApart(w) && FibRegs(w, s) && s.regs["pc"] == Code(k) && (k == 7 || k == 14)
    ensures StepsTo(w, s, View(w, s).(pc := Code(LoopAt)))
  {
    StepGotoLabel(FibMachineOf(w), s, k);
  }

  // `afterfib-n-1`, instructions 8 to 14

  lemma {:induction false} FibRestoreNStep(w: FibNames, s: State, top: Value, rest: seq<Value>)
    requires FibApart(w) && FibRegs(w, s) && s.regs["pc"] == Code(After1At) && s.stack == [top] + rest
    ensures StepsTo(w, s, View(w, s).(pc := Code(9), n := top, stack := rest))
  {
    assert s.stack[1..] == rest;
    StepRestore(FibMachineOf(w), s, After1At);
  }

  lemma {:induction false} FibRestoreContStep(w: FibNames, s: State, k: nat, top: Value, rest: seq<Value>)
    requires FibApart(w) && FibRegs(w, s) && s.regs["pc"] == Code(k) && (k == 9 || k == 17)
    requires s.stack == [top] + rest
    ensures StepsTo(w, s, View(w, s).(pc := Code(k + 1), cont := top, stack := rest))
  {
    assert s.stack[1..] == rest;
    StepRestore(FibMachineOf(w), s, k);
  }

  lemma {:induction false} FibDecrementTwoStep(w: FibNames, s: State, x: int)
    requires FibApart(w) && FibRegs(w, s) && s.regs["pc"] == Code(10) && s.regs[w.n] == Data(Num(x))
    ensures StepsTo(w, s, View(w, s).(pc := Code(11), n := Data(Num(x - 2))))
  {
    var m := FibMachineOf(w);
    RawApplyTwo(m, s, Sub, RegRef(w.n), Const(Num(2)), Num(x), Num(2));
    StepAssign(m, s, 10, Data(Num(x - 2)));
  }

  lemma {:induction false} FibSaveContAgainStep(w: FibNames, s: State)
    requires FibApart(w) && FibRegs(w, s) && s.regs["pc"] == Code(11)
    ensures StepsTo(w, s, View(w, s).(pc := Code(12), stack := [s.regs[w.cont]] + s.stack))
  {
    StepSave(FibMachineOf(w), s, 11);
  }

  lemma {:induction false} FibMarkAfter2Step(w: FibNames, s: State)
    requires FibApart(w) && FibRegs(w, s) && s.regs["pc"] == Code(12)
    ensures StepsTo(w, s, View(w, s).(pc := Code(13), cont := Code(After2At)))
  {
    StepAssign(FibMachineOf(w), s, 12, Code(After2At));
  }

  lemma {:induction false} FibSaveValStep(w: FibNames, s: State)
    requires FibApart(w) && FibRegs(w, s) && s.regs["pc"] == Code(13)
    ensures StepsTo(w, s, View(w, s).(pc := Code(14), stack := [s.regs[w.val]] + s.stack))
  {
    StepSave(FibMachineOf(w), s, 13);
  }

  // `afterfib-n-2`, instructions 15 to 19

  lemma {:induction false} FibMoveValStep(w: FibNames, s: State)
    requires FibApart(w) && FibRegs(w, s) && s.regs["pc"] == Code(After2At)
    ensures StepsTo(w, s, View(w, s).(pc := Code(16), n := s.regs[w.val]))
  {
    StepAssign(FibMachineOf(w), s, After2At, s.regs[w.val]);
  }

  lemma {:induction false} FibRestoreValStep(w: FibNames, s: State, top: Value, rest: seq<Value>)
    requires FibApart(w) && FibRegs(w, s) && s.regs["pc"] == Code(16) && s.stack == [top] + rest
    ensures StepsTo(w, s, View(w, s).(pc := Code(17), val := top, stack := rest))
  {
    assert s.stack[1..] == rest;
    StepRestore(FibMachineOf(w), s, 16);
  }

  lemma {:induction false} FibAddStep(w: FibNames, s: State, x: int, y: int)
    requires FibApart(w) && FibRegs(w, s) && s.regs["pc"] == Code(18)
    requires s.regs[w.val] == Data(Num(x)) && s.regs[w.n] == Data(Num(y))
    ensures StepsTo(w, s, View(w, s).(pc := Code(19), val := Data(Num(x + y))))
  {
    var m := FibMachineOf(w);
    RawApplyTwo(m, s, Add, RegRef(w.val), RegRef(w.n), Num(x), Num(y));
    StepAssign(m, s, 18, Data(Num(x + y)));
  }

  lemma {:induction false} FibReturnStep(w: FibNames, s: State, k: nat)
    requires FibApart(w) && FibRegs(w, s) && s.regs["pc"] == Code(k) && (k == 19 || k == 21)
    ensures StepsTo(w, s, View(w, s).(pc := s.regs[w.cont]))
  {
    StepGotoReg(FibMachineOf(w), s, k);
  }

  // `immediate-answer`, instructions 20 and 21

  lemma {:induction false} FibAnswerStep(w: FibNames, s: State)
    requires FibApart(w) && FibRegs(w, s) && s.regs["pc"] == Code(ImmediateAt)
    ensures StepsTo(w, s, View(w, s).(pc := Code(21), val := s.regs[w.n]))
  {
    StepAssign(FibMachineOf(w), s, ImmediateAt, s.regs[w.n]);
  }

  // the first and the last instruction

  lemma {:induction false} FibMarkDoneStep(w: FibNames, s: State)
    requires FibApart(w) && FibRegs(w, s) && s.regs["pc"] == Code(0)
    ensures StepsTo(w, s, View(w, s).(pc := Code(LoopAt), cont := Code(DoneAt)))
  {
    StepAssign(FibMachineOf(w), s, 0, Code(DoneAt));
  }

  /** `perform(list(op("print"), reg("val")))` shows `val` and moves `pc`
      past the last instruction. */
  lemma {:induction false} FibPrintStep(w: FibNames, s: State, x: Datum)
    requires FibApart(w) && FibRegs(w, s) && s.regs["pc"] == Code(DoneAt) && s.regs[w.val] == Data(x)
    ensures var r := Step(FibMachineOf(w), s);
      r.Next? && r.next == s.(regs := s.regs["pc" := Data(Null)])
  {
    var m := FibMachineOf(w);
    RawApplyOne(m, s, Display, RegRef(w.val), x);
    StepPerform(m, s, DoneAt, Data(x), s);
  }

  // ---- the blocks as runs ----

  /** With `n` = `x` < 2 the test and branch send control to
      `immediate-answer`, which copies `n` into `val` and returns through
      `continue`. */
  lemma {:induction false} FibLeaf(w: FibNames, s: State, x: int) returns (t: State)
    requires FibApart(w) && FibRegs(w, s) && s.regs["pc"] == Code(LoopAt) && s.regs[w.n] == Data(Num(x)) && x < 2
    ensures Exec(FibMachineOf(w), s, 4) == Running(t)
    ensures Kept(s, t) && FibRegs(w, t) &&
      View(w, t) == View(w, s).(pc := s.regs[w.cont], flag := Data(Bool(true)), val := Data(Num(x)))
  {
    var m := FibMachineOf(w);
    FibTestStep(w, s, x);
    var s1 := Step(m, s).next;
    ExecStep(m, s, s1, 3);
    FibBranchStep(w, s1, true);
    var s2 := Step(m, s1).next;
    ExecStep(m, s1, s2, 2);
    FibAnswerStep(w, s2);
    var s3 := Step(m, s2).next;
    ExecStep(m, s2, s3, 1);
    FibReturnStep(w, s3, 21);
    t := Step(m, s3).next;
    ExecStep(m, s3, t, 0);
  }

  /** With `n` = `x` >= 2 `fib-loop` saves `continue` and `n`, points
      `continue` at `afterfib-n-1` and goes round with `n` - 1. */
  lemma {:induction false} FibDescend(w: FibNames, s: State, x: int) returns (t: State)
    requires FibApart(w) && FibRegs(w, s) && s.regs["pc"] == Code(LoopAt) && s.regs[w.n] == Data(Num(x)) && x >= 2
    ensures Exec(FibMachineOf(w), s, 7) == Running(t)
    ensures Kept(s, t) && FibRegs(w, t) &&
      View(w, t) == View(w, s).(flag := Data(Bool(false)), cont := Code(After1At), n := Data(Num(x - 1)),
                                        stack := [Data(Num(x))] + ([s.regs[w.cont]] + s.stack))
  {
    var m := FibMachineOf(w);
    FibTestStep(w, s, x);
    var s1 := Step(m, s).next;
    ExecStep(m, s, s1, 6);
    FibBranchStep(w, s1, false);
    var s2 := Step(m, s1).next;
    ExecStep(m, s1, s2, 5);
    FibSaveContStep(w, s2);
    var s3 := Step(m, s2).next;
    ExecStep(m, s2, s3, 4);
    FibMarkAfter1Step(w, s3);
    var s4 := Step(m, s3).next;
    ExecStep(m, s3, s4, 3);
    FibSaveNStep(w, s4);
    var s5 := Step(m, s4).next;
    ExecStep(m, s4, s5, 2);
    FibDecrementStep(w, s5, x);
    var s6 := Step(m, s5).next;
    ExecStep(m, s5, s6, 1);
    FibLoopJumpStep(w, s6, 7);
    t := Step(m, s6).next;
    ExecStep(m, s6, t, 0);
  }

  /** Back at `afterfib-n-1` with Fib(x - 1) in `val`: `n` and `continue`
      come back off the stack, Fib(x - 1) goes onto it, and the loop goes
      round with `n` = x - 2 and `continue` at `afterfib-n-2`. */
  lemma {:induction false} FibSetUpSecond(w: FibNames, s: State, x: int, f1: int, c: Value, rest: seq<Value>)
    returns (t: State)
    requires FibApart(w) && FibRegs(w, s) && s.regs["pc"] == Code(After1At)
    requires s.stack == [Data(Num(x))] + ([c] + rest) && s.regs[w.val] == Data(Num(f1))
    ensures Exec(FibMachineOf(w), s, 7) == Running(t)
    ensures Kept(s, t) && FibRegs(w, t) &&
      View(w, t) == View(w, s).(pc := Code(LoopAt), cont := Code(After2At), n := Data(Num(x - 2)),
                                        stack := [Data(Num(f1))] + ([c] + rest))
  {
    var m := FibMachineOf(w);
    FibRestoreNStep(w, s, Data(Num(x)), [c] + rest);
    var s1 := Step(m, s).next;
    ExecStep(m, s, s1, 6);
    FibRestoreContStep(w, s1, 9, c, rest);
    var s2 := Step(m, s1).next;
    ExecStep(m, s1, s2, 5);
    FibDecrementTwoStep(w, s2, x);
    var s3 := Step(m, s2).next;
    ExecStep(m, s2, s3, 4);
    FibSaveContAgainStep(w, s3);
    var s4 := Step(m, s3).next;
    ExecStep(m, s3, s4, 3);
    FibMarkAfter2Step(w, s4);
    var s5 := Step(m, s4).next;
    ExecStep(m, s4, s5, 2);
    FibSaveValStep(w, s5);
    var s6 := Step(m, s5).next;
    ExecStep(m, s5, s6, 1);
    FibLoopJumpStep(w, s6, 14);
    t := Step(m, s6).next;
    ExecStep(m, s6, t, 0);
  }

  /** Back at `afterfib-n-2` with Fib(x - 2) in `val` and Fib(x - 1) on the
      stack: the sum goes into `val` and control returns through the
      restored `continue`. */
  lemma {:induction false} FibCombine(w: FibNames, s: State, f1: int, f2: int, c: Value, rest: seq<Value>)
    returns (t: State)
    requires FibApart(w) && FibRegs(w, s) && s.regs["pc"] == Code(After2At)
    requires s.stack == [Data(Num(f1))] + ([c] + rest) && s.regs[w.val] == Data(Num(f2))
    ensures Exec(FibMachineOf(w), s, 5) == Running(t)
    ensures Kept(s, t) && FibRegs(w, t) &&
      View(w, t) == View(w, s).(pc := c, cont := c, n := Data(Num(f2)), val := Data(Num(f1 + f2)),
                                        stack := rest)
  {
    var m := FibMachineOf(w);
    FibMoveValStep(w, s);
    var s1 := Step(m, s).next;
    ExecStep(m, s, s1, 4);
    FibRestoreValStep(w, s1, Data(Num(f1)), [c] + rest);
    var s2 := Step(m, s1).next;
    ExecStep(m, s1, s2, 3);
    FibRestoreContStep(w, s2, 17, c, rest);
    var s3 := Step(m, s2).next;
    ExecStep(m, s2, s3, 2);
    FibAddStep(w, s3, f1, f2);
    var s4 := Step(m, s3).next;
    ExecStep(m, s3, s4, 1);
    FibReturnStep(w, s4, 19);
    t := Step(m, s4).next;
    ExecStep(m, s4, t, 0);
  }

  // ---- the recursive call ----

  /** What a call leaves in `n`: its argument below 2, otherwise Fib(x - 2),
      copied out of `val` at `afterfib-n-2`. */
  function FibLast(x: int): int
  {
    if x < 2 then x else FibOf(x - 2)
  }

  /** The registers a call from `s` with argument `x` returns with: control
      and `continue` at the return point, Fib(x) in `val`, the flag set by
      the last test (always a base case), and the stack as it was. */
  function ReturnView(w: FibNames, s: State, x: int): FibView
    requires FibRegs(w, s)
  {
    View(w, s).(pc := s.regs[w.cont], flag := Data(Bool(true)), n := Data(Num(FibLast(x))), val := Data(Num(FibOf(x))))
  }

  /** Above the base case the value returned is the sum of the two before. */
  lemma {:induction false} ReturnViewSum(w: FibNames, s: State, x: int, f1: int, f2: int)
    requires FibRegs(w, s) && x >= 2 && f1 == FibOf(x - 1) && f2 == FibOf(x - 2)
    ensures ReturnView(w, s, x) == FibView(s.regs[w.cont], Data(Bool(true)), s.regs[w.cont], Data(Num(f2)),
                                           Data(Num(f1 + f2)), s.stack)
  {
    assert FibOf(x) == f1 + f2 && FibLast(x) == f2;
  }

  /** The controller's subroutine discipline: entered at `fib-loop` with
      `n` = `x` and a return point in `continue`, it reaches, after `k`
      instructions, a state `t` back at that point with Fib(x) in `val`, the
      same `continue` and the stack it was given. */
  lemma {:induction false} FibCall(w: FibNames, s: State, x: int) returns (k: nat, t: State)
    requires FibApart(w) && FibRegs(w, s) && s.regs["pc"] == Code(LoopAt) && s.regs[w.n] == Data(Num(x))
    ensures Exec(FibMachineOf(w), s, k) == Running(t)
    ensures Kept(s, t) && FibRegs(w, t) && View(w, t) == ReturnView(w, s, x)
    decreases if x < 0 then 0 else x, 4
  {
    if x < 2 {
      t := FibLeaf(w, s, x);
      k := 4;
      assert FibOf(x) == x && FibLast(x) == x;
    } else {
      k, t := FibRecurse(w, s, x);
    }
  }

  /** x >= 2: the two recursive calls and the sum. */
  lemma {:induction false} FibRecurse(w: FibNames, s: State, x: int) returns (k: nat, t: State)
    requires FibApart(w) && FibRegs(w, s) && s.regs["pc"] == Code(LoopAt) && s.regs[w.n] == Data(Num(x)) && x >= 2
    ensures Exec(FibMachineOf(w), s, k) == Running(t)
    ensures Kept(s, t) && FibRegs(w, t) && View(w, t) == ReturnView(w, s, x)
    decreases x, 3
  {
    var m := FibMachineOf(w);
    var f1 := FibOf(x - 1);
    var f2 := FibOf(x - 2);
    var a, s3 := FibFirstCall(w, s, x);
    var b, s5 := FibSecondCall(w, s3, x, f1, f2, s.regs[w.cont], s.stack);
    k, t := a + b, s5;
    ExecThen(m, s, a, b, k, s3);
    ReturnViewSum(w, s, x, f1, f2);
  }

  /** x >= 2: down into Fib(x - 1), back at `afterfib-n-1`, and on to the
      second call with Fib(x - 1) saved on the stack. */
  lemma {:induction false} FibFirstCall(w: FibNames, s: State, x: int) returns (a: nat, t: State)
    requires FibApart(w) && FibRegs(w, s) && s.regs["pc"] == Code(LoopAt) && s.regs[w.n] == Data(Num(x)) && x >= 2
    ensures Exec(FibMachineOf(w), s, a) == Running(t)
    ensures Kept(s, t) && FibRegs(w, t) &&
      View(w, t) == FibView(Code(LoopAt), Data(Bool(true)), Code(After2At), Data(Num(x - 2)),
                            Data(Num(FibOf(x - 1))), [Data(Num(FibOf(x - 1)))] + ([s.regs[w.cont]] + s.stack))
    decreases x, 2
  {
    var m := FibMachineOf(w);
    var a1, s2 := FibIntoFirst(w, s, x);
    t := FibSetUpSecond(w, s2, x, FibOf(x - 1), s.regs[w.cont], s.stack);
    a := a1 + 7;
    ExecThen(m, s, a1, 7, a, s2);
  }

  /** x >= 2: `fib-loop` and the call for Fib(x - 1), which returns to
      `afterfib-n-1` with the saved `n` and `continue` on the stack. */
  lemma {:induction false} FibIntoFirst(w: FibNames, s: State, x: int) returns (a: nat, t: State)
    requires FibApart(w) && FibRegs(w, s) && s.regs["pc"] == Code(LoopAt) && s.regs[w.n] == Data(Num(x)) && x >= 2
    ensures Exec(FibMachineOf(w), s, a) == Running(t)
    ensures Kept(s, t) && FibRegs(w, t) &&
      View(w, t) == View(w, s).(pc := Code(After1At), flag := Data(Bool(true)), cont := Code(After1At),
                                n := Data(Num(FibLast(x - 1))), val := Data(Num(FibOf(x - 1))),
                                stack := [Data(Num(x))] + ([s.regs[w.cont]] + s.stack))
    decreases x, 1
  {
    var m := FibMachineOf(w);
    var s1 := FibDescend(w, s, x);
    var k1, s2 := FibCall(w, s1, x - 1);
    a, t := 7 + k1, s2;
    ExecThen(m, s, 7, k1, a, s1);
  }

  /** The call for Fib(x - 2), entered with Fib(x - 1) = `f1` and the
      caller's return point on the stack, followed by `afterfib-n-2`: control
      returns to that point with the sum in `val` and the caller's stack. */
  lemma {:induction false} FibSecondCall(w: FibNames, s: State, x: int, f1: int, f2: int, c: Value, rest: seq<Value>)
    returns (b: nat, t: State)
    requires FibApart(w) && FibRegs(w, s) && x >= 2
    requires View(w, s) == FibView(Code(LoopAt), Data(Bool(true)), Code(After2At), Data(Num(x - 2)),
                                   Data(Num(f1)), [Data(Num(f1))] + ([c] + rest))
    requires f2 == FibOf(x - 2)
    ensures Exec(FibMachineOf(w), s, b) == Running(t)
    ensures Kept(s, t) && FibRegs(w, t) &&
      View(w, t) == FibView(c, Data(Bool(true)), c, Data(Num(f2)), Data(Num(f1 + f2)), rest)
    decreases x, 1
  {
    var m := FibMachineOf(w);
    var k2, s4 := FibCall(w, s, x - 2);
    t := FibCombine(w, s4, f1, f2, c, rest);
    b := k2 + 5;
    ExecThen(m, s, k2, 5, b, s4);
  }

  // ---- the test script ----

  /** Admissible names keep the three registers apart from each other and
      from the built-in `pc`, `flag` and `free`. */
  lemma {:induction false} FibNamesApart(w: FibNames)
    requires FibNamesOk(w)
    ensures FibApart(w) && w.cont != "free" && w.n != "free" && w.val != "free"
  {
    var r := FibRegisters(w);
    assert r[0] == w.cont && r[1] == w.n && r[2] == w.val;
    assert w.cont in r && w.n in r && w.val in r;
    RawBuiltins();
  }

  /** `make_machine` followed by `set_register_contents` of `n`, as the test
      script does before `start`. */
  function FibLoaded(w: FibNames, x: int): Result<(Machine, State)>
  {
    var (m, s) :- MakeMachine(Raw, FibRegisters(w), FibOps(w), FibText(w));
    var s1 :- SetRegisterContents(s, w.n, Data(Num(x)));
    Ok((m, s1))
  }

  /** The loaded machine's `start` puts control at the first instruction
      with `x` in `n`. */
  lemma {:induction false} FibStarted(w: FibNames, x: int) returns (t: State)
    requires FibNamesOk(w)
    ensures FibLoaded(w, x).Ok? && FibLoaded(w, x).value.0 == FibMachineOf(w)
    ensures Start(FibMachineOf(w), FibLoaded(w, x).value.1) == Ok(t)
    ensures FibRegs(w, t) && t.regs["pc"] == Code(0) && t.regs[w.n] == Data(Num(x))
  {
    FibAssembles(w);
    FibNamesApart(w);
    var (m, s) := MakeMachine(Raw, FibRegisters(w), FibOps(w), FibText(w)).value;
    assert w.cont in FibRegisters(w) && w.n in FibRegisters(w) && w.val in FibRegisters(w);
    RawBuiltins();
    var s1 := SetRegisterContents(s, w.n, Data(Num(x))).value;
    assert FibLoaded(w, x) == Ok((m, s1));
    t := Start(m, s1).value;
  }

  /** From the first instruction with `x` in `n`, the machine marks
      `fib-done` as the return point, runs the call, prints `val` and halts
      with Fib(x) in `val`. */
  lemma {:induction false} FibFromStart(w: FibNames, s: State, x: int) returns (k: nat, t: State)
    requires FibApart(w) && FibRegs(w, s) && s.regs["pc"] == Code(0) && s.regs[w.n] == Data(Num(x))
    ensures Exec(FibMachineOf(w), s, k) == Halt(t)
    ensures w.val in t.regs && t.regs[w.val] == Data(Num(FibOf(x)))
  {
    var m := FibMachineOf(w);
    FibMarkDoneStep(w, s);
    var s1 := Step(m, s).next;
    assert Exec(m, s, 1) == Running(s1);
    var k1, s2 := FibCall(w, s1, x);
    FibPrintStep(w, s2, Num(FibOf(x)));
    t := Step(m, s2).next;
    assert Step(m, t) == Halted;
    assert Exec(m, s2, 2) == Halt(t);
    var n1 := k1 + 2;
    ExecThen(m, s1, k1, 2, n1, s2);
    k := 1 + n1;
    ExecThen(m, s, 1, n1, k, s1);
  }

  /** `o` is a halt with the number `v` in register `r`. */
  predicate HaltsWith(o: Outcome, r: string, v: int)
  {
    o.Halt? && r in o.final.regs && o.final.regs[r] == Data(Num(v))
  }

  /** Loaded with `x` in `n` and started, the fib machine halts within `k`
      instructions with `v` in `val`. */
  predicate FibRunsTo(w: FibNames, x: int, k: nat, v: int)
  {
    FibLoaded(w, x).Ok? && HaltsWith(Run(FibLoaded(w, x).value.0, FibLoaded(w, x).value.1, k), w.val, v)
  }

  /** The fib machine, loaded with any number and started, halts with
      Fib of it in `val`. */
  lemma {:induction false} FibComputes(w: FibNames, x: int)
    requires FibNamesOk(w)
    ensures exists k: nat :: FibRunsTo(w, x, k, FibOf(x))
  {
    FibNamesApart(w);
    var s := FibStarted(w, x);
    var k, t := FibFromStart(w, s, x);
    assert FibRunsTo(w, x, k, FibOf(x));
  }

  /** test_cases_5_2.js:63-65: started with `n` = 10, the machine halts
      with 55 in `val`. */
  lemma {:induction false} FibTestScript()
    ensures exists k: nat :: FibRunsTo(TestFib, 10, k, 55)
  {
    TestFibNamesOk();
    FibComputes(TestFib, 10);
    assert FibOf(10) == 55;
  }
}
