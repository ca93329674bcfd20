/**
  Shared facts about the test controllers of test_cases_5_2.js, which run
  under the raw draft's conventions (5.3.js): raw constants, operations
  applied to the register values as they are, and `free` starting at raw 0.
  Each controller is written over its register, operation and label names,
  so that what it assembles to and how it runs are proved for any choice of
  admissible names; the names the test file uses are one instance.
 */
module Controllers {
  import opened HostData
  import opened Errors
  import opened Values
  import opened HostOps
  import opened Instructions
  import opened Assembler
  import opened RegisterMachine
  /** No operation name is a built-in one or repeats an earlier name. */
  predicate FreshOps(ops: seq<(string, Op)>)
  {
    && (forall i, j :: 0 <= i < |ops| && 0 <= j < |BuiltinOps()| ==> BuiltinOps()[j].0 != Str(ops[i].0))
    && (forall i, j :: 0 <= j < i < |ops| ==> ops[j].0 != ops[i].0)
  }

  /** Distinct one-character names are fresh: every built-in register of
      the raw draft has a longer name. */
  lemma {:induction false} RawRegistersFresh(names: seq<string>)
    requires forall i :: 0 <= i < |names| ==> |names[i]| == 1
    requires forall i, j :: 0 <= i < j < |names| ==> names[i] != names[j]
    ensures FreshNames(BuiltinTable(Raw), names)
  {
    var r := BuiltinRegisters(Raw);
    assert r == ["pc", "flag", "the_heads", "the_tails", "new_heads", "new_tails",
                 "free", "scan", "old", "new", "relocate_continue", "temp", "oldhr"];
    forall i | 0 <= i < |names| ensures names[i] !in BuiltinTable(Raw) {
      assert names[i] !in r;
    }
  }

  /** Every operation a controller supplies is found under its name bound
      to the function supplied: a built-in operation of the same name may
      stand in for it only when it is that function. */
  predicate OpsFound(ops: seq<(string, Op)>)
  {
    forall i :: 0 <= i < |ops| ==> LookupPrim(OpsTable(ops), Str(ops[i].0)) == Ok(ops[i].1)
  }

  /** Fresh operation names are found. */
  lemma {:induction false} FreshOpsFound(ops: seq<(string, Op)>)
    requires FreshOps(ops)
    ensures OpsFound(ops)
  {
    forall i | 0 <= i < |ops| ensures LookupPrim(OpsTable(ops), Str(ops[i].0)) == Ok(ops[i].1) {
      UserOpFound(ops, i);
    }
  }

  /** A user operation no built-in or earlier operation shadows is found
      under its own name. */
  lemma {:induction false} UserOpFound(ops: seq<(string, Op)>, i: nat)
    requires i < |ops|
    requires forall j :: 0 <= j < |BuiltinOps()| ==> BuiltinOps()[j].0 != Str(ops[i].0)
    requires forall j :: 0 <= j < i ==> ops[j].0 != ops[i].0
    ensures LookupPrim(OpsTable(ops), Str(ops[i].0)) == Ok(ops[i].1)
  {
    var t := OpsTable(ops);
    forall j | 0 <= j < 5 + i ensures t[j].0 != Str(ops[i].0) {
      if j < 5 {
        assert t[j] == BuiltinOps()[j];
      } else {
        assert t[j] == (Str(ops[j - 5].0), ops[j - 5].1);
      }
    }
    AssocFirstMatch(Str(ops[i].0), t, 5 + i);
  }

  // ---- instruction texts as the writers build them ----

  lemma {:induction false} TestResolves(name: string, xs: seq<Datum>, f: HostFn, os: seq<Operand>,
                                        labels: LabelTable, regs: set<string>, ops: seq<(Datum, Op)>)
    requires LookupPrim(ops, Str(name)) == Ok(Primitive(f))
    requires |xs| == |os| && forall i :: 0 <= i < |xs| ==> MakePrimitiveExp(xs[i], labels, regs) == Ok(os[i])
    ensures MakeExecution(TestText(OpAppText(name, xs)), labels, regs, ops) == Ok(Test(OpApp(Primitive(f), os)))
    ensures MakeExecution(PerformText(OpAppText(name, xs)), labels, regs, ops) == Ok(Perform(OpApp(Primitive(f), os)))
  {
    OpAppTextResolves(name, xs, Primitive(f), os, labels, regs, ops);
    TestPerformTextsResolve(OpAppText(name, xs), labels, regs, ops);
  }

  lemma {:induction false} AssignOpResolves(reg: string, name: string, xs: seq<Datum>, f: HostFn, os: seq<Operand>,
                                            labels: LabelTable, regs: set<string>, ops: seq<(Datum, Op)>)
    requires reg in regs && LookupPrim(ops, Str(name)) == Ok(Primitive(f))
    requires |xs| == |os| && forall i :: 0 <= i < |xs| ==> MakePrimitiveExp(xs[i], labels, regs) == Ok(os[i])
    ensures MakeExecution(AssignText(reg, OpAppText(name, xs)), labels, regs, ops) ==
            Ok(Assign(reg, Apply(OpApp(Primitive(f), os))))
  {
    OpAppTextResolves(name, xs, Primitive(f), os, labels, regs, ops);
    AssignTextResolves(reg, OpAppText(name, xs), labels, regs, ops);
  }

  lemma {:induction false} AssignSimpleResolves(reg: string, x: Datum, q: string, o: Operand,
                                                labels: LabelTable, regs: set<string>, ops: seq<(Datum, Op)>)
    requires reg in regs && MakePrimitiveExp(x, labels, regs) == Ok(o)
    requires x == RegText(q) || x == LabelText(q)
    ensures MakeExecution(AssignText(reg, x), labels, regs, ops) == Ok(Assign(reg, Simple(o)))
  {
    AssignTextResolves(reg, x, labels, regs, ops);
  }

  /** `MakeAll` of one more instruction text. */
  lemma {:induction false} MakeAllCons(x: Datum, rest: seq<Datum>, i: Instr, q: seq<Instr>,
                                       labels: LabelTable, regs: set<string>, ops: seq<(Datum, Op)>)
    requires MakeExecution(x, labels, regs, ops) == Ok(i)
    requires MakeAll(rest, labels, regs, ops) == Ok(q)
    ensures MakeAll([x] + rest, labels, regs, ops) == Ok([i] + q)
  {
    assert ([x] + rest)[1..] == rest;
  }

  /** `pc`, `flag` and `free` are built-in registers of the raw draft. */
  lemma {:induction false} RawBuiltins()
    ensures "pc" in BuiltinTable(Raw) && "flag" in BuiltinTable(Raw) && "free" in BuiltinTable(Raw)
  {
    assert BuiltinRegisters(Raw)[0] == "pc" && BuiltinRegisters(Raw)[1] == "flag";
    assert BuiltinRegisters(Raw)[6] == "free";
  }

  // ---- assembling a block of instructions ----

  /** Seven instructions that each resolve assemble to the seven results. */
  lemma {:induction false} MakeAllSeven(x0: Datum, x1: Datum, x2: Datum, x3: Datum, x4: Datum, x5: Datum, x6: Datum,
                                        p0: Instr, p1: Instr, p2: Instr, p3: Instr, p4: Instr, p5: Instr, p6: Instr,
                                        labels: LabelTable, regs: set<string>, ops: seq<(Datum, Op)>)
    requires MakeExecution(x0, labels, regs, ops) == Ok(p0)
    requires MakeExecution(x1, labels, regs, ops) == Ok(p1)
    requires MakeExecution(x2, labels, regs, ops) == Ok(p2)
    requires MakeExecution(x3, labels, regs, ops) == Ok(p3)
    requires MakeExecution(x4, labels, regs, ops) == Ok(p4)
    requires MakeExecution(x5, labels, regs, ops) == Ok(p5)
    requires MakeExecution(x6, labels, regs, ops) == Ok(p6)
    ensures MakeAll([x0, x1, x2, x3, x4, x5, x6], labels, regs, ops) == Ok([p0, p1, p2, p3, p4, p5, p6])
  {
    var e: seq<Datum>, f: seq<Instr> := [], [];
    MakeAllCons(x6, e, p6, f, labels, regs, ops);
    var r6, q6 := [x6] + e, [p6] + f;
    MakeAllCons(x5, r6, p5, q6, labels, regs, ops);
    var r5, q5 := [x5] + r6, [p5] + q6;
    MakeAllCons(x4, r5, p4, q5, labels, regs, ops);
    var r4, q4 := [x4] + r5, [p4] + q5;
    MakeAllCons(x3, r4, p3, q4, labels, regs, ops);
    var r3, q3 := [x3] + r4, [p3] + q4;
    MakeAllCons(x2, r3, p2, q3, labels, regs, ops);
    var r2, q2 := [x2] + r3, [p2] + q3;
    MakeAllCons(x1, r2, p1, q2, labels, regs, ops);
    var r1, q1 := [x1] + r2, [p1] + q2;
    MakeAllCons(x0, r1, p0, q1, labels, regs, ops);
    ConsSeven(x0, x1, x2, x3, x4, x5, x6);
    ConsSeven(p0, p1, p2, p3, p4, p5, p6);
  }

  // ---- sequence-literal helpers for the controller proofs ----
  // The controllers' instruction lists are built by consing one element at a
  // time; these two lemmas turn such a chain into a sequence display so that
  // the proofs above can compare it with the expected instruction list.

  /** A chain of seven one-element appends is the seven-element display. */
  lemma {:induction false} ConsSeven<T>(a: T, b: T, c: T, d: T, e: T, f: T, g: T)
    ensures [a] + ([b] + ([c] + ([d] + ([e] + ([f] + ([g] + [])))))) == [a, b, c, d, e, f, g]
  {
    assert [f] + ([g] + []) == [f, g];
    assert [e] + [f, g] == [e, f, g];
    assert [d] + [e, f, g] == [d, e, f, g];
    assert [c] + [d, e, f, g] == [c, d, e, f, g];
    assert [b] + [c, d, e, f, g] == [b, c, d, e, f, g];
  }

  /** A chain of five one-element appends is the five-element display. */
  lemma {:induction false} ConsFive<T>(a: T, b: T, c: T, d: T, e: T)
    ensures [a] + ([b] + ([c] + ([d] + ([e] + [])))) == [a, b, c, d, e]
  {
    assert [d] + ([e] + []) == [d, e];
    assert [c] + [d, e] == [c, d, e];
    assert [b] + [c, d, e] == [b, c, d, e];
  }

  lemma {:induction false} MakeAllOne(x: Datum, p: Instr, labels: LabelTable, regs: set<string>, ops: seq<(Datum, Op)>)
    requires MakeExecution(x, labels, regs, ops) == Ok(p)
    ensures MakeAll([x], labels, regs, ops) == Ok([p])
  {
    MakeAllCons(x, [], p, [], labels, regs, ops);
    assert [x] + [] == [x] && [p] + [] == [p];
  }

  lemma {:induction false} MakeAllTwo(x0: Datum, x1: Datum, p0: Instr, p1: Instr,
                                      labels: LabelTable, regs: set<string>, ops: seq<(Datum, Op)>)
    requires MakeExecution(x0, labels, regs, ops) == Ok(p0)
    requires MakeExecution(x1, labels, regs, ops) == Ok(p1)
    ensures MakeAll([x0, x1], labels, regs, ops) == Ok([p0, p1])
  {
    MakeAllOne(x1, p1, labels, regs, ops);
    MakeAllCons(x0, [x1], p0, [p1], labels, regs, ops);
    assert [x0] + [x1] == [x0, x1] && [p0] + [p1] == [p0, p1];
  }

  lemma {:induction false} MakeAllFive(x0: Datum, x1: Datum, x2: Datum, x3: Datum, x4: Datum,
                                       p0: Instr, p1: Instr, p2: Instr, p3: Instr, p4: Instr,
                                       labels: LabelTable, regs: set<string>, ops: seq<(Datum, Op)>)
    requires MakeExecution(x0, labels, regs, ops) == Ok(p0)
    requires MakeExecution(x1, labels, regs, ops) == Ok(p1)
    requires MakeExecution(x2, labels, regs, ops) == Ok(p2)
    requires MakeExecution(x3, labels, regs, ops) == Ok(p3)
    requires MakeExecution(x4, labels, regs, ops) == Ok(p4)
    ensures MakeAll([x0, x1, x2, x3, x4], labels, regs, ops) == Ok([p0, p1, p2, p3, p4])
  {
    var e: seq<Datum>, f: seq<Instr> := [], [];
    MakeAllCons(x4, e, p4, f, labels, regs, ops);
    var r4, q4 := [x4] + e, [p4] + f;
    MakeAllCons(x3, r4, p3, q4, labels, regs, ops);
    var r3, q3 := [x3] + r4, [p3] + q4;
    MakeAllCons(x2, r3, p2, q3, labels, regs, ops);
    var r2, q2 := [x2] + r3, [p2] + q3;
    MakeAllCons(x1, r2, p1, q2, labels, regs, ops);
    var r1, q1 := [x1] + r2, [p1] + q2;
    MakeAllCons(x0, r1, p0, q1, labels, regs, ops);
    ConsFive(x0, x1, x2, x3, x4);
    ConsFive(p0, p1, p2, p3, p4);
  }

  /** Two assembled pieces of text assemble together to the two results
      one after the other. */
  lemma {:induction false} MakeAllAppend(x: seq<Datum>, y: seq<Datum>, p: seq<Instr>, q: seq<Instr>,
                                         labels: LabelTable, regs: set<string>, ops: seq<(Datum, Op)>)
    requires MakeAll(x, labels, regs, ops) == Ok(p) && MakeAll(y, labels, regs, ops) == Ok(q)
    ensures MakeAll(x + y, labels, regs, ops) == Ok(p + q)
    decreases |x|
  {
    if |x| == 0 {
      assert x + y == y && p + q == q;
    } else {
      assert MakeExecution(x[0], labels, regs, ops) == Ok(p[0]);
      assert MakeAll(x[1..], labels, regs, ops) == Ok(p[1..]);
      MakeAllAppend(x[1..], y, p[1..], q, labels, regs, ops);
      ConsAppend(x, y);
      ConsAppend(p, q);
      MakeAllCons(x[0], x[1..] + y, p[0], p[1..] + q, labels, regs, ops);
    }
  }

  lemma {:induction false} ConsAppend<T>(x: seq<T>, y: seq<T>)
    requires |x| > 0
    ensures x + y == [x[0]] + (x[1..] + y)
  {
    assert (x + y)[1..] == x[1..] + y;
  }

  // ---- operand-list helpers for the controller proofs ----
  // `MakeOperands` states its result element by element; these two lemmas
  // supply that element-wise premise for the two- and one-operand operation
  // expressions of the gcd and Fibonacci controllers.

  /** Two resolved operand texts give the two-element operand list. */
  lemma {:induction false} TwoOperands(x0: Datum, x1: Datum, o0: Operand, o1: Operand, labels: LabelTable,
                                       regs: set<string>)
    requires MakePrimitiveExp(x0, labels, regs) == Ok(o0) && MakePrimitiveExp(x1, labels, regs) == Ok(o1)
    ensures forall i :: 0 <= i < 2 ==> MakePrimitiveExp([x0, x1][i], labels, regs) == Ok([o0, o1][i])
  {
    forall i | 0 <= i < 2 ensures MakePrimitiveExp([x0, x1][i], labels, regs) == Ok([o0, o1][i]) {
      if i == 0 {} else {}
    }
  }

  /** One resolved operand text gives the one-element operand list. */
  lemma {:induction false} OneOperand(x0: Datum, o0: Operand, labels: LabelTable, regs: set<string>)
    requires MakePrimitiveExp(x0, labels, regs) == Ok(o0)
    ensures forall i :: 0 <= i < 1 ==> MakePrimitiveExp([x0][i], labels, regs) == Ok([o0][i])
  {
    forall i | 0 <= i < 1 ensures MakePrimitiveExp([x0][i], labels, regs) == Ok([o0][i]) {
      assert [x0][i] == x0 && [o0][i] == o0;
    }
  }
}
