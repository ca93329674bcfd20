/**
  The two-pass assembler (4.1_to_register.js:509-853).  `extract_labels`
  splits a controller text into instruction texts and a label table whose
  entries point at instruction suffixes; `make_execution_function` then
  resolves each instruction text against the label table, the register
  table and the operation table.  Every malformed instruction, undefined
  label, unknown register and unknown operation is reported here, before
  the machine runs.
 */
module Assembler {
  import opened HostData
  import opened Errors
  import opened Instructions

  /** A label table: label name and the index of the first instruction of
      the suffix it names (`|insts|` for the empty suffix). */
  type LabelTable = seq<(Datum, nat)>

  /** The number of instruction entries (non-strings) in a controller text. */
  function CountInsts(text: seq<Datum>): nat
  {
    if |text| == 0 then 0 else (if text[0].Str? then 0 else 1) + CountInsts(text[1..])
  }

  /** The number of label entries (strings) in a controller text. */
  function CountLabels(text: seq<Datum>): nat
  {
    if |text| == 0 then 0 else (if text[0].Str? then 1 else 0) + CountLabels(text[1..])
  }

  function Shift(labels: LabelTable): (r: LabelTable)
    ensures |r| == |labels|
    ensures forall j :: 0 <= j < |r| ==> r[j] == (labels[j].0, labels[j].1 + 1)
  {
    seq(|labels|, j requires 0 <= j < |labels| => (labels[j].0, labels[j].1 + 1))
  }

  /** `extract_labels`: the helper for the head of the text receives the
      result for the rest; a string becomes a label bound to the current
      suffix, anything else is prepended as an instruction (which moves every
      later label one instruction further from the start). */
  function ExtractLabels(text: seq<Datum>): (r: (seq<Datum>, LabelTable))
    ensures |r.0| == CountInsts(text) && |r.1| == CountLabels(text)
    ensures forall j :: 0 <= j < |r.1| ==> r.1[j].1 <= |r.0|
  {
    if |text| == 0 then ([], [])
    else
      var rest := ExtractLabels(text[1..]);
      if text[0].Str? then (rest.0, [(text[0], 0)] + rest.1)
      else ([text[0]] + rest.0, Shift(rest.1))
  }

  lemma {:induction false} CountPrefix(text: seq<Datum>, p: nat)
    requires 0 < p <= |text|
    ensures CountInsts(text[..p]) == (if text[0].Str? then 0 else 1) + CountInsts(text[1..][..p - 1])
    ensures CountLabels(text[..p]) == (if text[0].Str? then 1 else 0) + CountLabels(text[1..][..p - 1])
  {
    assert text[..p][1..] == text[1..][..p - 1];
  }

  /** The instruction list is exactly the non-string entries of the text in
      order: the entry at position `p` is instruction number "instructions
      before `p`".  The label at position `p` is entry number "labels before
      `p`" of the table and names the suffix starting at the next
      instruction. */
  lemma {:induction false} ExtractLabelsPositions(text: seq<Datum>, p: nat)
    requires p < |text|
    ensures !text[p].Str? ==> CountInsts(text[..p]) < CountInsts(text)
    ensures text[p].Str? ==> CountLabels(text[..p]) < CountLabels(text)
    ensures !text[p].Str? ==> ExtractLabels(text).0[CountInsts(text[..p])] == text[p]
    ensures text[p].Str? ==>
      ExtractLabels(text).1[CountLabels(text[..p])] == (text[p], CountInsts(text[..p]))
  {
    var rest := ExtractLabels(text[1..]);
    if p == 0 {
      assert text[..0] == [];
    } else {
      ExtractLabelsPositions(text[1..], p - 1);
      CountPrefix(text, p);
      assert text[1..][p - 1] == text[p];
    }
  }

  /** Every instruction and every label entry comes from some position of
      the text, so nothing is invented. */
  lemma {:induction false} ExtractLabelsSources(text: seq<Datum>, i: nat)
    ensures i < CountInsts(text) ==>
      exists p :: 0 <= p < |text| && !text[p].Str? && CountInsts(text[..p]) == i
    ensures i < CountLabels(text) ==>
      exists p :: 0 <= p < |text| && text[p].Str? && CountLabels(text[..p]) == i
  {
    if |text| > 0 {
      var c := if text[0].Str? then 0 else 1;
      var l := if text[0].Str? then 1 else 0;
      assert text[..0] == [];
      if i < CountInsts(text) && !(c == 1 && i == 0) {
        ExtractLabelsSources(text[1..], i - c);
        var q :| 0 <= q < |text[1..]| && !text[1..][q].Str? && CountInsts(text[1..][..q]) == i - c;
        CountPrefix(text, q + 1);
        assert text[q + 1] == text[1..][q];
      }
      if i < CountLabels(text) && !(l == 1 && i == 0) {
        ExtractLabelsSources(text[1..], i - l);
        var q :| 0 <= q < |text[1..]| && text[1..][q].Str? && CountLabels(text[1..][..q]) == i - l;
        CountPrefix(text, q + 1);
        assert text[q + 1] == text[1..][q];
      }
    }
  }

  /** Two labels with no instruction between them name the same suffix. */
  lemma {:induction false} ConsecutiveLabelsAlias(text: seq<Datum>, p: nat, q: nat)
    requires p < q < |text| && text[p].Str? && text[q].Str?
    requires forall j :: p < j < q ==> text[j].Str?
    ensures CountLabels(text[..p]) < |ExtractLabels(text).1| && CountLabels(text[..q]) < |ExtractLabels(text).1|
    ensures ExtractLabels(text).1[CountLabels(text[..p])].1 ==
            ExtractLabels(text).1[CountLabels(text[..q])].1
  {
    ExtractLabelsPositions(text, p);
    ExtractLabelsPositions(text, q);
    CountInstsAcrossLabels(text, p, q);
  }

  lemma {:induction false} CountInstsAcrossLabels(text: seq<Datum>, p: nat, q: nat)
    requires p <= q <= |text|
    requires forall j :: p <= j < q ==> text[j].Str?
    ensures CountInsts(text[..q]) == CountInsts(text[..p])
  {
    if p < q {
      CountInstsAcrossLabels(text, p, q - 1);
      CountInstsSnoc(text[..q - 1], text[q - 1]);
      assert text[..q] == text[..q - 1] + [text[q - 1]];
    }
  }

  lemma {:induction false} CountInstsSnoc(s: seq<Datum>, x: Datum)
    ensures CountInsts(s + [x]) == CountInsts(s) + (if x.Str? then 0 else 1)
  {
    if |s| > 0 {
      CountInstsSnoc(s[1..], x);
      assert (s + [x])[1..] == s[1..] + [x];
    } else {
      assert (s + [x])[1..] == [];
    }
  }

  /** `lookup_label`: the first entry with that name. */
  function LookupLabel(labels: LabelTable, name: Datum): (r: Result<nat>)
    ensures r.Err? <==> forall j :: 0 <= j < |labels| ==> labels[j].0 != name
    ensures r.Err? ==> r.error == UndefinedLabel(name)
    ensures r.Ok? ==> exists j :: 0 <= j < |labels| && labels[j] == (name, r.value) &&
                                 forall i :: 0 <= i < j ==> labels[i].0 != name
  {
    forall j | 0 <= j < |labels| ensures IsEqual(name, labels[j].0) <==> name == labels[j].0 {
      IsEqualIsEquality(name, labels[j].0);
    }
    match Assoc(name, labels)
    case Some(j) => Ok(labels[j].1)
    case None => Err(UndefinedLabel(name))
  }

  /** A duplicated label resolves to its first occurrence in the text. */
  lemma {:induction false} DuplicateLabelFirstWins(text: seq<Datum>, p: nat)
    requires p < |text| && text[p].Str?
    requires forall q :: 0 <= q < p ==> text[q] != text[p]
    ensures LookupLabel(ExtractLabels(text).1, text[p]) == Ok(CountInsts(text[..p]))
  {
    var labels := ExtractLabels(text).1;
    var i := CountLabels(text[..p]);
    ExtractLabelsPositions(text, p);
    forall j | 0 <= j < i ensures labels[j].0 != text[p] {
      EarlierLabelEntry(text, p, j);
    }
    AssocFirstMatch(text[p], labels, i);
  }

  lemma {:induction false} EarlierLabelEntry(text: seq<Datum>, p: nat, j: nat)
    requires p < |text| && j < CountLabels(text[..p])
    ensures j < |ExtractLabels(text).1|
    ensures exists q :: 0 <= q < p && text[q].Str? && ExtractLabels(text).1[j].0 == text[q]
  {
    CountLabelsPrefixBound(text, p);
    ExtractLabelsSources(text, j);
    var q :| 0 <= q < |text| && text[q].Str? && CountLabels(text[..q]) == j;
    ExtractLabelsPositions(text, q);
    if q >= p {
      CountLabelsMonotone(text, p, q);
    }
  }

  lemma {:induction false} CountLabelsMonotone(text: seq<Datum>, p: nat, q: nat)
    requires p <= q <= |text|
    ensures CountLabels(text[..p]) <= CountLabels(text[..q])
  {
    if p < q {
      CountLabelsMonotone(text, p, q - 1);
      CountLabelsSnoc(text[..q - 1], text[q - 1]);
      assert text[..q] == text[..q - 1] + [text[q - 1]];
    }
  }

  lemma {:induction false} CountLabelsPrefixBound(text: seq<Datum>, p: nat)
    requires p <= |text|
    ensures CountLabels(text[..p]) <= CountLabels(text)
  {
    CountLabelsMonotone(text, p, |text|);
    assert text[..|text|] == text;
  }

  lemma {:induction false} CountLabelsSnoc(s: seq<Datum>, x: Datum)
    ensures CountLabels(s + [x]) == CountLabels(s) + (if x.Str? then 1 else 0)
  {
    if |s| > 0 {
      CountLabelsSnoc(s[1..], x);
      assert (s + [x])[1..] == s[1..] + [x];
    } else {
      assert (s + [x])[1..] == [];
    }
  }

  /** `get_register` during assembly: the name must be an allocated register. */
  function LookupRegister(regs: set<string>, name: Datum): (r: Result<string>)
    ensures r.Ok? <==> name.Str? && name.s in regs
    ensures r.Ok? ==> name == Str(r.value)
    ensures r.Err? ==> r.error == UnknownRegister(name)
  {
    if name.Str? && name.s in regs then Ok(name.s) else Err(UnknownRegister(name))
  }

  /** `lookup_prim`: the first operation-table entry with that name. */
  function LookupPrim(ops: seq<(Datum, Op)>, name: Datum): (r: Result<Op>)
    ensures r.Err? <==> forall j :: 0 <= j < |ops| ==> ops[j].0 != name
    ensures r.Err? ==> r.error == UnknownOperation(name)
    ensures r.Ok? ==> exists j :: 0 <= j < |ops| && ops[j] == (name, r.value) &&
                                 forall i :: 0 <= i < j ==> ops[i].0 != name
  {
    forall j | 0 <= j < |ops| ensures IsEqual(name, ops[j].0) <==> name == ops[j].0 {
      IsEqualIsEquality(name, ops[j].0);
    }
    match Assoc(name, ops)
    case Some(j) => Ok(ops[j].1)
    case None => Err(UnknownOperation(name))
  }

  /** `make_primitive_exp`: a constant, a label or a register. */
  function MakePrimitiveExp(exp: Datum, labels: LabelTable, regs: set<string>): (r: Result<Operand>)
    ensures r.Ok? ==> (r.value.LabelRef? ==> exists j :: 0 <= j < |labels| && labels[j].1 == r.value.target)
    ensures r.Ok? ==> (r.value.RegRef? ==> r.value.name in regs)
    ensures !IsTaggedList(exp, "constant") && !IsTaggedList(exp, "label") && !IsTaggedList(exp, "reg")
            ==> r == Err(UnknownExpressionType(exp))
  {
    if IsTaggedList(exp, "constant") then
      var c :- Head(exp.tl);
      Ok(Const(c))
    else if IsTaggedList(exp, "label") then
      var name :- Head(exp.tl);
      var k :- LookupLabel(labels, name);
      Ok(LabelRef(k))
    else if IsTaggedList(exp, "reg") then
      var name :- Head(exp.tl);
      var reg :- LookupRegister(regs, name);
      Ok(RegRef(reg))
    else Err(UnknownExpressionType(exp))
  }

  /** `map(make_primitive_exp, operands)` over a host list. */
  function MakeOperands(list: Datum, labels: LabelTable, regs: set<string>): (r: Result<seq<Operand>>)
    ensures r.Ok? ==> forall i :: 0 <= i < |r.value| ==>
      (r.value[i].LabelRef? ==> exists j :: 0 <= j < |labels| && labels[j].1 == r.value[i].target) &&
      (r.value[i].RegRef? ==> r.value[i].name in regs)
  {
    if list.Null? then Ok([])
    else
      var h :- Head(list);
      var o :- MakePrimitiveExp(h, labels, regs);
      var rest :- MakeOperands(list.tl, labels, regs);
      Ok([o] + rest)
  }

  /** `is_operation_exp`: the head of the expression is `op(name)`; taking
      the head fails on an atom. */
  function IsOperationExp(exp: Datum): (r: Result<bool>)
    ensures r.Ok? <==> exp.Pair?
    ensures r.Ok? ==> (r.value <==> IsTaggedList(exp.hd, "op"))
  {
    var h :- Head(exp);
    Ok(IsTaggedList(h, "op"))
  }

  /** `make_operation_exp`: the operation is looked up first, then the
      operands are resolved in order. */
  function MakeOperationExp(exp: Datum, labels: LabelTable, regs: set<string>, ops: seq<(Datum, Op)>)
    : (r: Result<OpApp>)
    requires exp.Pair? && IsTaggedList(exp.hd, "op")
    ensures r.Ok? ==> forall i :: 0 <= i < |r.value.operands| ==>
      (r.value.operands[i].LabelRef? ==> exists j :: 0 <= j < |labels| && labels[j].1 == r.value.operands[i].target) &&
      (r.value.operands[i].RegRef? ==> r.value.operands[i].name in regs)
    ensures exp.hd.tl.Pair? && LookupPrim(ops, exp.hd.tl.hd).Err? ==> r == Err(UnknownOperation(exp.hd.tl.hd))
  {
    var name :- Head(exp.hd.tl);
    var op :- LookupPrim(ops, name);
    var operands :- MakeOperands(exp.tl, labels, regs);
    Ok(OpApp(op, operands))
  }

  /** The seven instruction tags. */
  predicate IsInstructionTag(x: Datum)
  {
    x in {Str("assign"), Str("test"), Str("branch"), Str("go_to"), Str("save"), Str("restore"), Str("perform")}
  }

  /** The operand of a one-operand instruction: `head(tail(inst))`. */
  function SecondOf(inst: Datum): Result<Datum>
  {
    var t :- Tail(inst);
    Head(t)
  }

  /** `make_execution_function`: dispatch on the instruction's tag. */
  function MakeExecution(inst: Datum, labels: LabelTable, regs: set<string>, ops: seq<(Datum, Op)>)
    : (r: Result<Instr>)
    ensures r.Ok? ==> inst.Pair? && IsInstructionTag(inst.hd)
    ensures inst.Pair? && !IsInstructionTag(inst.hd) ==> r == Err(UnknownInstructionType(inst))
    ensures r.Ok? && r.value.Assign? ==> inst.hd == Str("assign")
    ensures r.Ok? && r.value.Test? ==> inst.hd == Str("test")
    ensures r.Ok? && r.value.Branch? ==> inst.hd == Str("branch")
    ensures r.Ok? && (r.value.GotoLabel? || r.value.GotoReg?) ==> inst.hd == Str("go_to")
    ensures r.Ok? && r.value.Save? ==> inst.hd == Str("save")
    ensures r.Ok? && r.value.Restore? ==> inst.hd == Str("restore")
    ensures r.Ok? && r.value.Perform? ==> inst.hd == Str("perform")
    ensures (inst.Pair? && inst.hd == Str("branch") && inst.tl.Pair? && !IsTaggedList(inst.tl.hd, "label"))
      ==> r == Err(BadBranchInstruction(inst))
    ensures (inst.Pair? && inst.hd == Str("go_to") && inst.tl.Pair? &&
             !IsTaggedList(inst.tl.hd, "label") && !IsTaggedList(inst.tl.hd, "reg"))
      ==> r == Err(BadGotoInstruction(inst))
    ensures (inst.Pair? && inst.hd == Str("test") && inst.tl.Pair? && inst.tl.hd.Pair? &&
             !IsTaggedList(inst.tl.hd.hd, "op"))
      ==> r == Err(BadTestInstruction(inst))
    ensures (inst.Pair? && inst.hd == Str("perform") && inst.tl.Pair? && inst.tl.hd.Pair? &&
             !IsTaggedList(inst.tl.hd.hd, "op"))
      ==> r == Err(BadPerformInstruction(inst))
    ensures (inst.Pair? && (inst.hd == Str("save") || inst.hd == Str("restore")) && inst.tl.Pair? &&
             !(inst.tl.hd.Str? && inst.tl.hd.s in regs))
      ==> r == Err(UnknownRegister(inst.tl.hd))
    ensures r.Ok? ==> forall k :: k in LabelTargets(r.value) ==> exists j :: 0 <= j < |labels| && labels[j].1 == k
    ensures r.Ok? ==> RegisterNames(r.value) <= regs
  {
    var x :- Head(inst);
    if x == Str("assign") then
      var name :- SecondOf(inst);
      var reg :- LookupRegister(regs, name);
      var valueExp :- Head(inst.tl.tl);
      var isOp :- IsOperationExp(valueExp);
      if isOp then
        var app :- MakeOperationExp(valueExp, labels, regs, ops);
        Ok(Assign(reg, Apply(app)))
      else
        var src :- MakePrimitiveExp(valueExp, labels, regs);
        Ok(Assign(reg, Simple(src)))
    else if x == Str("test") then
      var condition :- SecondOf(inst);
      var isOp :- IsOperationExp(condition);
      if isOp then
        var app :- MakeOperationExp(condition, labels, regs, ops);
        Ok(Test(app))
      else Err(BadTestInstruction(inst))
    else if x == Str("branch") then
      var dest :- SecondOf(inst);
      if IsTaggedList(dest, "label") then
        var name :- Head(dest.tl);
        var k :- LookupLabel(labels, name);
        Ok(Branch(k))
      else Err(BadBranchInstruction(inst))
    else if x == Str("go_to") then
      var dest :- SecondOf(inst);
      if IsTaggedList(dest, "label") then
        var name :- Head(dest.tl);
        var k :- LookupLabel(labels, name);
        Ok(GotoLabel(k))
      else if IsTaggedList(dest, "reg") then
        var name :- Head(dest.tl);
        var reg :- LookupRegister(regs, name);
        Ok(GotoReg(reg))
      else Err(BadGotoInstruction(inst))
    else if x == Str("save") || x == Str("restore") then
      var name :- SecondOf(inst);
      var reg :- LookupRegister(regs, name);
      Ok(if x == Str("save") then Save(reg) else Restore(reg))
    else if x == Str("perform") then
      var action :- SecondOf(inst);
      var isOp :- IsOperationExp(action);
      if isOp then
        var app :- MakeOperationExp(action, labels, regs, ops);
        Ok(Perform(app))
      else Err(BadPerformInstruction(inst))
    else Err(UnknownInstructionType(inst))
  }

  function OperandLabels(os: seq<Operand>): set<nat>
  {
    set i | 0 <= i < |os| && os[i].LabelRef? :: os[i].target
  }

  function OperandRegs(os: seq<Operand>): set<string>
  {
    set i | 0 <= i < |os| && os[i].RegRef? :: os[i].name
  }

  /** The label targets an instruction refers to. */
  function LabelTargets(i: Instr): set<nat>
  {
    match i
    case Assign(_, e) => if e.Simple? then OperandLabels([e.src]) else OperandLabels(e.app.operands)
    case Test(app) => OperandLabels(app.operands)
    case Branch(k) => {k}
    case GotoLabel(k) => {k}
    case Perform(app) => OperandLabels(app.operands)
    case _ => {}
  }

  /** The registers an instruction refers to. */
  function RegisterNames(i: Instr): set<string>
  {
    match i
    case Assign(r, e) => {r} + (if e.Simple? then OperandRegs([e.src]) else OperandRegs(e.app.operands))
    case Test(app) => OperandRegs(app.operands)
    case GotoReg(r) => {r}
    case Save(r) => {r}
    case Restore(r) => {r}
    case Perform(app) => OperandRegs(app.operands)
    case _ => {}
  }

  /** Resolves every instruction text in order; the first failure wins. */
  function MakeAll(insts: seq<Datum>, labels: LabelTable, regs: set<string>, ops: seq<(Datum, Op)>)
    : (r: Result<seq<Instr>>)
    ensures r.Ok? <==> forall i :: 0 <= i < |insts| ==> MakeExecution(insts[i], labels, regs, ops).Ok?
    ensures r.Ok? ==> |r.value| == |insts|
    ensures r.Ok? ==> forall i :: 0 <= i < |insts| ==> r.value[i] == MakeExecution(insts[i], labels, regs, ops).value
    ensures r.Err? ==> exists i :: 0 <= i < |insts| && MakeExecution(insts[i], labels, regs, ops) == Err(r.error) &&
                                 forall j :: 0 <= j < i ==> MakeExecution(insts[j], labels, regs, ops).Ok?
  {
    if |insts| == 0 then Ok([])
    else
      var first :- MakeExecution(insts[0], labels, regs, ops);
      var rest :- MakeAll(insts[1..], labels, regs, ops);
      assert forall i :: 1 <= i < |insts| ==> insts[i] == insts[1..][i - 1];
      Ok([first] + rest)
  }

  /** `assemble`: extract the labels, then resolve every instruction. */
  function Assemble(text: seq<Datum>, regs: set<string>, ops: seq<(Datum, Op)>): (r: Result<seq<Instr>>)
    ensures r.Ok? ==> |r.value| == CountInsts(text)
    ensures r.Ok? ==> forall i :: 0 <= i < |r.value| ==> InstrOk(r.value[i], |r.value|, regs)
    ensures r.Ok? <==> forall i :: 0 <= i < CountInsts(text) ==>
      MakeExecution(ExtractLabels(text).0[i], ExtractLabels(text).1, regs, ops).Ok?
    ensures r.Ok? ==> forall i :: 0 <= i < CountInsts(text) ==>
      r.value[i] == MakeExecution(ExtractLabels(text).0[i], ExtractLabels(text).1, regs, ops).value
    ensures r.Err? ==> exists i :: 0 <= i < CountInsts(text) &&
                                 MakeExecution(ExtractLabels(text).0[i], ExtractLabels(text).1, regs, ops) == Err(r.error)
  {
    var insts, labels := ExtractLabels(text).0, ExtractLabels(text).1;
    match MakeAll(insts, labels, regs, ops)
    case Err(e) =>
      var i :| 0 <= i < |insts| && MakeExecution(insts[i], labels, regs, ops) == Err(e);
      assert !MakeExecution(ExtractLabels(text).0[i], ExtractLabels(text).1, regs, ops).Ok?;
      Err(e)
    case Ok(res) =>
      assert forall i :: 0 <= i < |res| ==> InstrOk(res[i], |res|, regs) by {
        forall i | 0 <= i < |res| ensures InstrOk(res[i], |res|, regs) {
          ResolvedInstrOk(res[i], |res|, regs, labels);
        }
      }
      Ok(res)
  }

  /** Read against the text itself: the instruction entry at position `p`
      becomes instruction number "instructions before `p`" of the assembled
      list, resolved against the whole text's labels, and an entry that
      fails to resolve makes the whole assembly fail. */
  lemma {:induction false} AssembleByPosition(text: seq<Datum>, regs: set<string>, ops: seq<(Datum, Op)>, p: nat)
    requires p < |text| && !text[p].Str?
    ensures var made := MakeExecution(text[p], ExtractLabels(text).1, regs, ops);
      && (made.Err? ==> Assemble(text, regs, ops).Err?)
      && (Assemble(text, regs, ops).Ok? ==>
            CountInsts(text[..p]) < |Assemble(text, regs, ops).value| &&
            Assemble(text, regs, ops).value[CountInsts(text[..p])] == made.value)
  {
    ExtractLabelsPositions(text, p);
  }

  /** An assembly error is the error of some instruction entry of the text. */
  lemma {:induction false} AssembleErrorSource(text: seq<Datum>, regs: set<string>, ops: seq<(Datum, Op)>)
    ensures Assemble(text, regs, ops).Err? ==>
      exists p :: 0 <= p < |text| && !text[p].Str? &&
        MakeExecution(text[p], ExtractLabels(text).1, regs, ops) == Err(Assemble(text, regs, ops).error)
  {
    var insts, labels := ExtractLabels(text).0, ExtractLabels(text).1;
    var r := Assemble(text, regs, ops);
    if r.Err? {
      var i :| 0 <= i < |insts| && MakeExecution(insts[i], labels, regs, ops) == Err(r.error);
      ExtractLabelsSources(text, i);
      var p :| 0 <= p < |text| && !text[p].Str? && CountInsts(text[..p]) == i;
      ExtractLabelsPositions(text, p);
    }
  }

  lemma {:induction false} ResolvedInstrOk(i: Instr, n: nat, regs: set<string>, labels: LabelTable)
    requires forall j :: 0 <= j < |labels| ==> labels[j].1 <= n
    requires forall k :: k in LabelTargets(i) ==> exists j :: 0 <= j < |labels| && labels[j].1 == k
    requires RegisterNames(i) <= regs
    ensures InstrOk(i, n, regs)
  {
    var targets := LabelTargets(i);
    assert forall k :: k in targets ==> k <= n by {
      forall k | k in targets ensures k <= n {
        var j :| 0 <= j < |labels| && labels[j].1 == k;
      }
    }
    match i
    case Assign(_, e) =>
      if e.Simple? {
        assert targets == OperandLabels([e.src]);
        OperandsOk([e.src], n, regs);
        assert [e.src][0] == e.src;
      } else {
        OperandsOk(e.app.operands, n, regs);
      }
    case Test(app) => OperandsOk(app.operands, n, regs);
    case Perform(app) => OperandsOk(app.operands, n, regs);
    case Branch(k) => assert k in targets;
    case GotoLabel(k) => assert k in targets;
    case _ =>
  }

  lemma {:induction false} OperandsOk(os: seq<Operand>, n: nat, regs: set<string>)
    requires forall k :: k in OperandLabels(os) ==> k <= n
    requires OperandRegs(os) <= regs
    ensures forall k :: 0 <= k < |os| ==> OperandOk(os[k], n, regs)
  {
    forall k | 0 <= k < |os| ensures OperandOk(os[k], n, regs) {
      var o := os[k];
      if o.LabelRef? { assert o.target in OperandLabels(os); }
      if o.RegRef? { assert o.name in OperandRegs(os); }
    }
  }

  // ---- what the assembler makes of the texts the controller-writers build ----

  /** Every label of the table moved `n` instructions further on. */
  function ShiftBy(labels: LabelTable, n: nat): (r: LabelTable)
    ensures |r| == |labels|
    ensures forall j :: 0 <= j < |r| ==> r[j] == (labels[j].0, labels[j].1 + n)
  {
    seq(|labels|, j requires 0 <= j < |labels| => (labels[j].0, labels[j].1 + n))
  }

  /** A run of instruction texts with no label among them is copied to the
      instruction list unchanged, and every later label moves past it. */
  lemma {:induction false} ExtractLabelsAcrossInstructions(insts: seq<Datum>, rest: seq<Datum>)
    requires forall i :: 0 <= i < |insts| ==> !insts[i].Str?
    ensures ExtractLabels(insts + rest) ==
      (insts + ExtractLabels(rest).0, ShiftBy(ExtractLabels(rest).1, |insts|))
    decreases |insts|
  {
    var e := ExtractLabels(rest);
    if |insts| > 0 {
      ExtractLabelsAcrossInstructions(insts[1..], rest);
      var inner := ExtractLabels(insts[1..] + rest);
      assert (insts + rest)[0] == insts[0] && (insts + rest)[1..] == insts[1..] + rest;
      assert ExtractLabels(insts + rest) == ([insts[0]] + inner.0, Shift(inner.1));
      assert [insts[0]] + (insts[1..] + e.0) == insts + e.0;
      assert Shift(ShiftBy(e.1, |insts| - 1)) == ShiftBy(e.1, |insts|);
    } else {
      assert insts + rest == rest && insts + e.0 == e.0;
      assert ShiftBy(e.1, 0) == e.1;
    }
  }

  /** A label at the head of the text names the first instruction after it. */
  lemma {:induction false} ExtractLabelsAtLabel(here: Datum, rest: seq<Datum>)
    requires here.Str?
    ensures ExtractLabels([here] + rest) == (ExtractLabels(rest).0, [(here, 0)] + ExtractLabels(rest).1)
  {
    assert ([here] + rest)[1..] == rest;
  }

  /** A text without labels is its own instruction list. */
  lemma {:induction false} ExtractLabelsNone(insts: seq<Datum>)
    requires forall i :: 0 <= i < |insts| ==> !insts[i].Str?
    ensures ExtractLabels(insts) == (insts, [])
  {
    ExtractLabelsAcrossInstructions(insts, []);
    assert insts + [] == insts;
  }

  /** Instructions, then a label, then the rest: the label names the
      position right after the instructions. */
  lemma {:induction false} ExtractLabelsBlock(insts: seq<Datum>, here: Datum, rest: seq<Datum>)
    requires here.Str? && forall i :: 0 <= i < |insts| ==> !insts[i].Str?
    ensures ExtractLabels(insts + ([here] + rest)) ==
      (insts + ExtractLabels(rest).0, ShiftBy([(here, 0)] + ExtractLabels(rest).1, |insts|))
  {
    ExtractLabelsAtLabel(here, rest);
    ExtractLabelsAcrossInstructions(insts, [here] + rest);
  }

  /** `constant(v)`, `label(name)` and `reg(name)` resolve to the operand they
      name, and an unknown label or register is reported by name. */
  lemma {:induction false} PrimitiveTextsResolve(name: string, v: Datum, labels: LabelTable, regs: set<string>)
    ensures MakePrimitiveExp(ConstantText(v), labels, regs) == Ok(Const(v))
    ensures MakePrimitiveExp(LabelText(name), labels, regs) ==
      (if LookupLabel(labels, Str(name)).Ok? then Ok(LabelRef(LookupLabel(labels, Str(name)).value))
       else Err(UndefinedLabel(Str(name))))
    ensures MakePrimitiveExp(RegText(name), labels, regs) ==
      (if name in regs then Ok(RegRef(name)) else Err(UnknownRegister(Str(name))))
  {
  }

  /** `map(make_primitive_exp, list(e1, ..., ek))` resolves the operands in
      order. */
  lemma {:induction false} OperandTextsResolve(xs: seq<Datum>, os: seq<Operand>, labels: LabelTable, regs: set<string>)
    requires |xs| == |os|
    requires forall i :: 0 <= i < |xs| ==> MakePrimitiveExp(xs[i], labels, regs) == Ok(os[i])
    ensures MakeOperands(List(xs), labels, regs) == Ok(os)
    decreases |xs|
  {
    if |xs| > 0 {
      OperandTextsResolve(xs[1..], os[1..], labels, regs);
      assert [os[0]] + os[1..] == os;
    }
  }

  /** `list(op(name), e1, ..., ek)` is an operation expression; it resolves
      to the operation `name` is bound to, applied to the resolved operands. */
  lemma {:induction false} OpAppTextResolves(name: string, xs: seq<Datum>, op: Op, os: seq<Operand>,
                                             labels: LabelTable, regs: set<string>, ops: seq<(Datum, Op)>)
    requires LookupPrim(ops, Str(name)) == Ok(op)
    requires |xs| == |os|
    requires forall i :: 0 <= i < |xs| ==> MakePrimitiveExp(xs[i], labels, regs) == Ok(os[i])
    ensures var exp := OpAppText(name, xs);
      && exp.Pair? && IsTaggedList(exp.hd, "op")
      && MakeOperationExp(exp, labels, regs, ops) == Ok(OpApp(op, os))
  {
    assert ([OpText(name)] + xs)[1..] == xs;
    OperandTextsResolve(xs, os, labels, regs);
  }

  /** `assign(reg, e)`: an unknown target register is reported first; an
      operation expression is then resolved by `make_operation_exp` and any
      other pair by `make_primitive_exp`. */
  lemma {:induction false} AssignTextResolves(reg: string, exp: Datum, labels: LabelTable, regs: set<string>,
                                              ops: seq<(Datum, Op)>)
    ensures reg !in regs ==> MakeExecution(AssignText(reg, exp), labels, regs, ops) == Err(UnknownRegister(Str(reg)))
    ensures reg in regs && exp.Pair? && IsTaggedList(exp.hd, "op") ==>
      MakeExecution(AssignText(reg, exp), labels, regs, ops) ==
        (var app :- MakeOperationExp(exp, labels, regs, ops); Ok(Assign(reg, Apply(app))))
    ensures reg in regs && exp.Pair? && !IsTaggedList(exp.hd, "op") ==>
      MakeExecution(AssignText(reg, exp), labels, regs, ops) ==
        (var src :- MakePrimitiveExp(exp, labels, regs); Ok(Assign(reg, Simple(src))))
  {
  }

  /** `test(cond)` and `perform(action)` accept only an operation expression. */
  lemma {:induction false} TestPerformTextsResolve(exp: Datum, labels: LabelTable, regs: set<string>,
                                                   ops: seq<(Datum, Op)>)
    ensures exp.Pair? && IsTaggedList(exp.hd, "op") ==>
      && MakeExecution(TestText(exp), labels, regs, ops) ==
           (var app :- MakeOperationExp(exp, labels, regs, ops); Ok(Test(app)))
      && MakeExecution(PerformText(exp), labels, regs, ops) ==
           (var app :- MakeOperationExp(exp, labels, regs, ops); Ok(Perform(app)))
    ensures exp.Pair? && !IsTaggedList(exp.hd, "op") ==>
      && MakeExecution(TestText(exp), labels, regs, ops) == Err(BadTestInstruction(TestText(exp)))
      && MakeExecution(PerformText(exp), labels, regs, ops) == Err(BadPerformInstruction(PerformText(exp)))
  {
  }

  /** `branch(label(name))` and `go_to(label(name))` jump to the suffix the
      label names, `go_to(reg(name))` to the one a register holds; an
      undefined label or unknown register is reported by name. */
  lemma {:induction false} JumpTextsResolve(name: string, labels: LabelTable, regs: set<string>, ops: seq<(Datum, Op)>)
    ensures MakeExecution(BranchText(LabelText(name)), labels, regs, ops) ==
      (var k :- LookupLabel(labels, Str(name)); Ok(Branch(k)))
    ensures MakeExecution(GoToText(LabelText(name)), labels, regs, ops) ==
      (var k :- LookupLabel(labels, Str(name)); Ok(GotoLabel(k)))
    ensures MakeExecution(GoToText(RegText(name)), labels, regs, ops) ==
      (if name in regs then Ok(GotoReg(name)) else Err(UnknownRegister(Str(name))))
  {
  }

  /** `save(reg)` and `restore(reg)` name an allocated register. */
  lemma {:induction false} StackTextsResolve(reg: string, labels: LabelTable, regs: set<string>, ops: seq<(Datum, Op)>)
    ensures MakeExecution(SaveText(reg), labels, regs, ops) ==
      (if reg in regs then Ok(Save(reg)) else Err(UnknownRegister(Str(reg))))
    ensures MakeExecution(RestoreText(reg), labels, regs, ops) ==
      (if reg in regs then Ok(Restore(reg)) else Err(UnknownRegister(Str(reg))))
  {
  }
}
