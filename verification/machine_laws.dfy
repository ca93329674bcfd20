/**
  Laws of the register machine: what one step may change, how runs
  compose, when the machine stops, and that a machine built by
  `MakeMachine` never meets an assembly-time error while it runs.
 */
module MachineLaws {
  import opened HostData
  import opened Errors
  import opened Values
  import opened HostOps
  import opened Instructions
  import opened RegisterMachine

  /** The registers an instruction writes besides `pc`. */
  function Targets(i: Instr): set<string>
  {
    match i
    case Assign(r, _) => {r}
    case Test(_) => {"flag"}
    case Restore(r) => {r}
    case _ => {}
  }

  /** Only `save`, `restore` and an `initialize_stack` operation touch the stack. */
  predicate TouchesStack(i: Instr)
  {
    || i.Save? || i.Restore?
    || (i.Assign? && i.e.Apply? && i.e.app.op.InitializeStack?)
    || (i.Test? && i.cond.op.InitializeStack?)
    || (i.Perform? && i.action.op.InitializeStack?)
  }

  /** Only a `vector_set` operation touches the vectors. */
  predicate TouchesMemory(i: Instr)
  {
    || (i.Assign? && i.e.Apply? && i.e.app.op.VectorSetOp?)
    || (i.Test? && i.cond.op.VectorSetOp?)
    || (i.Perform? && i.action.op.VectorSetOp?)
  }

  /** Everything an instruction does not name is left alone. */
  lemma {:induction false} ExecuteFrame(m: Machine, i: Instr, s: State)
    requires "pc" in s.regs && Execute(m, i, s).Ok?
    ensures var t := Execute(m, i, s).value;
      && t.regs.Keys == s.regs.Keys
      && (forall q :: q in s.regs && q != "pc" && q !in Targets(i) ==> t.regs[q] == s.regs[q])
      && (!TouchesStack(i) ==> t.stack == s.stack)
      && (!TouchesMemory(i) ==> t.mem == s.mem)
  {
  }

  /** An instruction that is not a jump, and does not itself write `pc`,
      moves on to the next instruction. */
  lemma {:induction false} ExecuteAdvances(m: Machine, i: Instr, s: State, k: nat)
    requires "pc" in s.regs && s.regs["pc"] == Code(k) && k < |m.insts|
    requires !i.Branch? && !i.GotoLabel? && !i.GotoReg? && "pc" !in Targets(i)
    requires Execute(m, i, s).Ok?
    ensures Execute(m, i, s).value.regs["pc"] == SuffixValue(k + 1, |m.insts|)
  {
  }

  /** `branch` jumps exactly when the flag holds; `go_to` always jumps. */
  lemma {:induction false} ExecuteJumps(m: Machine, i: Instr, s: State, k: nat)
    requires "pc" in s.regs && s.regs["pc"] == Code(k) && k < |m.insts|
    requires (i.Branch? || i.GotoLabel? || i.GotoReg?) && Execute(m, i, s).Ok?
    ensures var t := Execute(m, i, s).value;
      && t.stack == s.stack && t.mem == s.mem
      && (i.GotoLabel? ==> t.regs["pc"] == SuffixValue(i.target, |m.insts|))
      && (i.GotoReg? ==> i.reg in s.regs && t.regs["pc"] == s.regs[i.reg])
      && (i.Branch? ==> "flag" in s.regs)
      && (i.Branch? && FlagHolds(m.draft, s.regs["flag"]) ==> t.regs["pc"] == SuffixValue(i.target, |m.insts|))
      && (i.Branch? && !FlagHolds(m.draft, s.regs["flag"]) ==> t.regs["pc"] == SuffixValue(k + 1, |m.insts|))
  {
  }

  /** A well-formed machine cannot fail with an error that assembly should
      have caught; only run-time errors remain. */
  lemma {:induction false} ExecuteNoSetupError(m: Machine, s: State, k: nat)
    requires WellFormed(m, s) && s.regs["pc"] == Code(k) && k < |m.insts|
    ensures Execute(m, m.insts[k], s).Err? ==> !IsSetupError(Execute(m, m.insts[k], s).error)
  {
    assert InstrOk(m.insts[k], |m.insts|, s.regs.Keys);
  }

  lemma {:induction false} StepKeepsWellFormed(m: Machine, s: State)
    requires WellFormed(m, s) && Step(m, s).Next?
    ensures WellFormed(m, Step(m, s).next)
  {
  }

  lemma {:induction false} StepNoSetupError(m: Machine, s: State)
    requires WellFormed(m, s) && Step(m, s).Fault?
    ensures !IsSetupError(Step(m, s).error)
  {
    var pc := s.regs["pc"];
    if pc.Code? && pc.k < |m.insts| {
      ExecuteNoSetupError(m, s, pc.k);
    }
  }

  /** Running a well-formed machine for any number of steps never produces a
      setup error, and the machine stays well-formed. */
  lemma {:induction false} ExecNoSetupError(m: Machine, s: State, fuel: nat)
    requires WellFormed(m, s)
    ensures Exec(m, s, fuel).Fail? ==> !IsSetupError(Exec(m, s, fuel).error)
    ensures Exec(m, s, fuel).Running? ==> WellFormed(m, Exec(m, s, fuel).current)
    ensures Exec(m, s, fuel).Halt? ==> WellFormed(m, Exec(m, s, fuel).final)
    decreases fuel
  {
    if fuel > 0 {
      match Step(m, s)
      case Halted =>
      case Fault(e) => StepNoSetupError(m, s);
      case Next(t) =>
        StepKeepsWellFormed(m, s);
        ExecNoSetupError(m, t, fuel - 1);
    }
  }

  /** Continue an unfinished run for `more` further steps. */
  function Resume(m: Machine, o: Outcome, more: nat): Outcome
  {
    if o.Running? then Exec(m, o.current, more) else o
  }

  /** Runs compose: `a + b` steps are `a` steps followed by `b` more. */
  lemma {:induction false} ExecCompose(m: Machine, s: State, a: nat, b: nat)
    ensures Exec(m, s, a + b) == Resume(m, Exec(m, s, a), b)
    decreases a, 1
  {
    if a > 0 && Step(m, s).Next? {
      ExecComposeNext(m, s, Step(m, s).next, a, b);
    }
  }

  lemma {:induction false} ExecComposeNext(m: Machine, s: State, t: State, a: nat, b: nat)
    requires a > 0 && Step(m, s) == Next(t)
    ensures Exec(m, s, a + b) == Resume(m, Exec(m, s, a), b)
    decreases a, 0
  {
    var a', n := a - 1, a + b;
    ExecUnfold(m, s, t, a, a');
    ExecUnfold(m, s, t, n, a' + b);
    ExecCompose(m, t, a', b);
  }

  /** A run of `n` > 0 steps whose first step reaches `t` is a run of
      `n` - 1 steps from `t`. */
  lemma {:induction false} ExecUnfold(m: Machine, s: State, t: State, n: nat, n': nat)
    requires Step(m, s) == Next(t) && n == n' + 1
    ensures Exec(m, s, n) == Exec(m, t, n')
  {
  }

  /** A run that halts stops with the empty instruction list in `pc`, and
      extra fuel does not change a finished run. */
  lemma {:induction false} ExecHalts(m: Machine, s: State, fuel: nat, more: nat)
    ensures Exec(m, s, fuel).Halt? ==> "pc" in Exec(m, s, fuel).final.regs &&
                                       Exec(m, s, fuel).final.regs["pc"] == Data(Null)
    ensures !Exec(m, s, fuel).Running? ==> Exec(m, s, fuel + more) == Exec(m, s, fuel)
    decreases fuel
  {
    if fuel > 0 {
      match Step(m, s)
      case Halted =>
      case Fault(_) =>
      case Next(t) => ExecHalts(m, t, fuel - 1, more);
    }
  }

  /** `save r` followed by `restore q` copies `r` into `q` and leaves the
      stack as it was. */
  lemma {:induction false} SaveThenRestore(m: Machine, s: State, k: nat, r: string, q: string)
    requires "pc" in s.regs && s.regs["pc"] == Code(k) && k + 1 < |m.insts|
    requires m.insts[k] == Save(r) && m.insts[k + 1] == Restore(q)
    requires r in s.regs && q in s.regs && q != "pc"
    ensures Exec(m, s, 2).Running?
    ensures var t := Exec(m, s, 2).current;
      && t.stack == s.stack && t.mem == s.mem
      && t.regs == s.regs[q := s.regs[r]]["pc" := SuffixValue(k + 2, |m.insts|)]
  {
    var s1 := s.(stack := Push(s.stack, s.regs[r]))
               .(regs := s.regs["pc" := Code(k + 1)]);
    assert Step(m, s) == Next(s1);
    var s2 := s1.(stack := s.stack).(regs := s1.regs[q := s.regs[r]]["pc" := SuffixValue(k + 2, |m.insts|)]);
    assert Step(m, s1) == Next(s2);
    assert Exec(m, s1, 1) == Exec(m, s2, 0);
  }

  /** The next `n` steps from `s` all run instructions that leave the stack
      alone, and none of them halts or faults. */
  predicate StackQuiet(m: Machine, s: State, n: nat)
    decreases n
  {
    n == 0 ||
    ("pc" in s.regs && s.regs["pc"].Code? && s.regs["pc"].k < |m.insts|
     && !TouchesStack(m.insts[s.regs["pc"].k])
     && Step(m, s).Next? && StackQuiet(m, Step(m, s).next, n - 1))
  }

  /** A stretch of stack-quiet steps hands on the stack it started with. */
  lemma {:induction false} StackQuietKeepsStack(m: Machine, s: State, n: nat)
    requires StackQuiet(m, s, n)
    ensures Exec(m, s, n).Running? && Exec(m, s, n).current.stack == s.stack
    decreases n
  {
    if n > 0 {
      var k := s.regs["pc"].k;
      var t := Step(m, s).next;
      ExecuteFrame(m, m.insts[k], s);
      StackQuietKeepsStack(m, t, n - 1);
      ExecUnfold(m, s, t, n, n - 1);
    }
  }

  /** A `save` and a later `restore` with only stack-quiet instructions in
      between: the restored register receives the value the saved register
      held when it was saved, whatever happened to either register since,
      and the stack is as it was before the `save`. */
  lemma {:induction false} SaveRestoreAcross(m: Machine, s: State, k: nat, r: string, n: nat, t: State, j: nat, q: string)
    requires At(m, s, k) && m.insts[k] == Save(r) && r in s.regs
    requires Step(m, s).Next? && StackQuiet(m, Step(m, s).next, n)
    requires Exec(m, s, n + 1) == Running(t)
    requires At(m, t, j) && m.insts[j] == Restore(q) && q in t.regs && q != "pc"
    ensures Exec(m, s, n + 2).Running?
    ensures var w := Exec(m, s, n + 2).current;
      && w.stack == s.stack && w.mem == t.mem
      && w.regs == t.regs[q := s.regs[r]]["pc" := SuffixValue(j + 1, |m.insts|)]
  {
    StepSave(m, s, k);
    var s1 := Step(m, s).next;
    assert s1.stack == [s.regs[r]] + s.stack;
    StackQuietKeepsStack(m, s1, n);
    ExecUnfold(m, s, s1, n + 1, n);
    assert t.stack == s1.stack;
    StepRestore(m, t, j);
    var w := Step(m, t).next;
    assert w.stack == s.stack;
    ExecThen(m, s, n + 1, 1, n + 2, t);
    ExecStep(m, t, w, 0);
  }

  // ---- one step of each instruction kind ----

  /** The state `s` with `pc` at instruction `k` of `m`. */
  predicate At(m: Machine, s: State, k: nat)
  {
    "pc" in s.regs && s.regs["pc"] == Code(k) && k < |m.insts|
  }

  /** `assign`: the register takes the expression's value and `pc` advances. */
  lemma {:induction false} StepAssign(m: Machine, s: State, k: nat, v: Value)
    requires At(m, s, k) && m.insts[k].Assign? && m.insts[k].reg in s.regs && m.insts[k].reg != "pc"
    requires EvalExpr(m, m.insts[k].e, s) == Ok((v, s))
    ensures Step(m, s) == Next(s.(regs := s.regs[m.insts[k].reg := v]["pc" := SuffixValue(k + 1, |m.insts|)]))
  {
  }

  /** `test`: the flag takes the condition's value and `pc` advances. */
  lemma {:induction false} StepTest(m: Machine, s: State, k: nat, v: Value)
    requires At(m, s, k) && m.insts[k].Test? && "flag" in s.regs
    requires ApplyApp(m, m.insts[k].cond, s) == Ok((v, s))
    ensures Step(m, s) == Next(s.(regs := s.regs["flag" := v]["pc" := SuffixValue(k + 1, |m.insts|)]))
  {
  }

  /** `branch`: to the label when the flag holds, otherwise on. */
  lemma {:induction false} StepBranch(m: Machine, s: State, k: nat)
    requires At(m, s, k) && m.insts[k].Branch? && "flag" in s.regs
    ensures Step(m, s) == Next(s.(regs := s.regs["pc" :=
      if FlagHolds(m.draft, s.regs["flag"]) then SuffixValue(m.insts[k].target, |m.insts|)
      else SuffixValue(k + 1, |m.insts|)]))
  {
  }

  /** `go_to` a label. */
  lemma {:induction false} StepGotoLabel(m: Machine, s: State, k: nat)
    requires At(m, s, k) && m.insts[k].GotoLabel?
    ensures Step(m, s) == Next(s.(regs := s.regs["pc" := SuffixValue(m.insts[k].target, |m.insts|)]))
  {
  }

  /** `go_to` the contents of a register. */
  lemma {:induction false} StepGotoReg(m: Machine, s: State, k: nat)
    requires At(m, s, k) && m.insts[k].GotoReg? && m.insts[k].reg in s.regs
    ensures Step(m, s) == Next(s.(regs := s.regs["pc" := s.regs[m.insts[k].reg]]))
  {
  }

  /** `save`: the register's contents go on top of the stack. */
  lemma {:induction false} StepSave(m: Machine, s: State, k: nat)
    requires At(m, s, k) && m.insts[k].Save? && m.insts[k].reg in s.regs
    ensures Step(m, s) == Next(s.(stack := [s.regs[m.insts[k].reg]] + s.stack)
                                 .(regs := s.regs["pc" := SuffixValue(k + 1, |m.insts|)]))
  {
  }

  /** `restore`: the top of the stack goes into the register. */
  lemma {:induction false} StepRestore(m: Machine, s: State, k: nat)
    requires At(m, s, k) && m.insts[k].Restore? && m.insts[k].reg in s.regs && m.insts[k].reg != "pc"
    requires |s.stack| > 0
    ensures Step(m, s) == Next(s.(stack := s.stack[1..])
                                 .(regs := s.regs[m.insts[k].reg := s.stack[0]]["pc" := SuffixValue(k + 1, |m.insts|)]))
  {
  }

  /** `perform`: the action's effect on the vectors, and `pc` advances. */
  lemma {:induction false} StepPerform(m: Machine, s: State, k: nat, v: Value, t: State)
    requires At(m, s, k) && m.insts[k].Perform?
    requires ApplyApp(m, m.insts[k].action, s) == Ok((v, t))
    ensures Step(m, s) == Next(t.(regs := t.regs["pc" := SuffixValue(k + 1, |m.insts|)]))
  {
  }

  /** One more step of a run. */
  lemma {:induction false} ExecStep(m: Machine, s: State, t: State, fuel: nat)
    requires Step(m, s) == Next(t)
    ensures Exec(m, s, fuel + 1) == Exec(m, t, fuel)
  {
  }

  // ---- operations of the raw draft on register operands ----

  /** A host function applied directly to one operand's value. */
  lemma {:induction false} RawApplyOne(m: Machine, s: State, f: HostFn, o: Operand, x: Datum)
    requires m.draft.Raw? && OperandValue(m, s, o) == Ok(Data(x))
    ensures ApplyApp(m, OpApp(Primitive(f), [o]), s) ==
      (var y :- ApplyHost(f, [x]); Ok((Data(y), s)))
  {
    OneValue(m, s, o, x);
  }

  /** A host function applied directly to two operands' values. */
  lemma {:induction false} RawApplyTwo(m: Machine, s: State, f: HostFn, o1: Operand, o2: Operand, x: Datum, y: Datum)
    requires m.draft.Raw? && OperandValue(m, s, o1) == Ok(Data(x)) && OperandValue(m, s, o2) == Ok(Data(y))
    ensures ApplyApp(m, OpApp(Primitive(f), [o1, o2]), s) ==
      (var z :- ApplyHost(f, [x, y]); Ok((Data(z), s)))
  {
    OneValue(m, s, o2, y);
    assert [o1, o2][1..] == [o2];
    assert OperandValues(m, s, [o1, o2]) == Ok([Data(x)] + [Data(y)]);
    assert [Data(x)] + [Data(y)] == [Data(x), Data(y)];
    assert [Data(x), Data(y)][1..] == [Data(y)];
    assert RawArgs([Data(x), Data(y)]) == Ok([x] + [y]);
    assert [x] + [y] == [x, y];
  }

  lemma {:induction false} OneValue(m: Machine, s: State, o: Operand, x: Datum)
    requires OperandValue(m, s, o) == Ok(Data(x))
    ensures OperandValues(m, s, [o]) == Ok([Data(x)]) && RawArgs([Data(x)]) == Ok([x])
  {
    assert [o][1..] == [];
    assert [Data(x)] + [] == [Data(x)];
    assert [Data(x)][1..] == [];
    assert [x] + [] == [x];
  }

  /** A run that reaches `t` after `a` steps continues from `t`. */
  lemma {:induction false} ExecSplit(m: Machine, s: State, a: nat, b: nat, t: State)
    requires Exec(m, s, a) == Running(t)
    ensures Exec(m, s, a + b) == Exec(m, t, b)
  {
    ExecCompose(m, s, a, b);
  }

  /** `ExecSplit` with the total `n` = `a` + `b` named by the caller, so that
      the run it speaks of is the caller's own term. */
  lemma {:induction false} ExecThen(m: Machine, s: State, a: nat, b: nat, n: nat, t: State)
    requires Exec(m, s, a) == Running(t) && n == a + b
    ensures Exec(m, s, n) == Exec(m, t, b)
  {
    ExecSplit(m, s, a, b, t);
  }
}
