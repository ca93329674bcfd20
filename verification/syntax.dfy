/**
  Syntax classification of the tagged-list syntax tree (5.4.js:1-43) and the
  order in which the evaluator dispatches on it (5.4.js:55-76 and
  4.1_to_register.js:174-187).
 */
module Syntax {
  import opened HostData
  import opened Errors

  /** `is_self_evaluating`: numbers, booleans and `undefined`.  Such a value
      is never a pair (so never a tagged form), a string (a variable) or
      `null`. */
  function IsSelfEvaluating(d: Datum): (r: bool)
    ensures r ==> !d.Pair? && !d.Str? && !d.Null?
  {
    d.Num? || d.Bool? || d.Undefined?
  }

  /** `is_variable`: a string, which is neither self-evaluating nor a
      tagged form. */
  function IsVariable(d: Datum): (r: bool)
    ensures r ==> !IsSelfEvaluating(d) && !d.Pair?
  {
    d.Str?
  }

  predicate IsVariableDeclaration(d: Datum) { IsTaggedList(d, "variable_declaration") }
  predicate IsQuoted(d: Datum) { IsTaggedList(d, "quoted") }
  predicate IsAssignment(d: Datum) { IsTaggedList(d, "assignment") }
  predicate IsDefinition(d: Datum) { IsTaggedList(d, "definition") }
  predicate IsConditionalExpression(d: Datum) { IsTaggedList(d, "conditional_expression") }
  predicate IsFunctionExpression(d: Datum) { IsTaggedList(d, "function_expression") }
  predicate IsBlock(d: Datum) { IsTaggedList(d, "block") }
  predicate IsApplication(d: Datum) { IsTaggedList(d, "application") }

  /** Self-evaluating and variable expressions are atoms of disjoint kinds;
      strings, `null` and pairs are not self-evaluating. */
  lemma {:induction false} SelfEvaluatingAndVariableDisjoint(d: Datum)
    ensures !(IsSelfEvaluating(d) && IsVariable(d))
    ensures d.Str? || d.Null? || d.Pair? ==> !IsSelfEvaluating(d)
    ensures IsVariable(d) <==> d.Str?
  {
  }

  /** A tagged predicate holds exactly of pairs headed by its tag, so two
      predicates with different tags never hold together, and none holds of
      a self-evaluating expression or a variable. */
  lemma {:induction false} TaggedPredicatesExclusive(d: Datum, t1: string, t2: string)
    ensures IsTaggedList(d, t1) <==> d.Pair? && d.hd == Str(t1)
    ensures t1 != t2 ==> !(IsTaggedList(d, t1) && IsTaggedList(d, t2))
    ensures IsTaggedList(d, t1) ==> !IsSelfEvaluating(d) && !IsVariable(d)
  {
  }

  /** One test of a dispatch sequence. */
  datatype SyntaxTest = SelfEvaluating | Variable | Tagged(tag: string)

  predicate Holds(t: SyntaxTest, d: Datum)
  {
    match t
    case SelfEvaluating => IsSelfEvaluating(d)
    case Variable => IsVariable(d)
    case Tagged(tag) => IsTaggedList(d, tag)
  }

  const UnknownExpressionType: string := "unknown_expression_type"

  /** The dispatch order of 5.4.js:55-76, as (test, handler label) pairs. */
  const Order54: seq<(SyntaxTest, string)> := [
    (SelfEvaluating, "ev_self_eval"),
    (Variable, "ev_variable"),
    (Tagged("quoted"), "ev_quoted"),
    (Tagged("assignment"), "ev_assignment"),
    (Tagged("definition"), "ev_definition"),
    (Tagged("conditional_expression"), "ev_if"),
    (Tagged("function_expression"), "ev_lambda"),
    (Tagged("block"), "ev_begin"),
    (Tagged("application"), "ev_application")
  ]

  /** The dispatch order of 4.1_to_register.js:174-187.  The assignment
      handler's label is spelled "assignment" there. */
  const Order41: seq<(SyntaxTest, string)> := [
    (SelfEvaluating, "ev_self_eval"),
    (Tagged("name"), "ev_name"),
    (Tagged("constant_declaration"), "ev_constant_declaration"),
    (Tagged("variable_declaration"), "ev_variable_declaration"),
    (Tagged("assignment"), "assignment"),
    (Tagged("conditional_expression"), "ev_if"),
    (Tagged("function_definition"), "ev_lambda"),
    (Tagged("sequence"), "ev_sequence"),
    (Tagged("application"), "ev_application")
  ]

  /** The reference meaning of a test-and-branch chain: the label of the first
      test that holds, or the unknown-expression label. */
  function FirstMatch(order: seq<(SyntaxTest, string)>, d: Datum): string
  {
    if |order| == 0 then UnknownExpressionType
    else if Holds(order[0].0, d) then order[0].1
    else FirstMatch(order[1..], d)
  }

  /** `FirstMatch` picks entry `i` exactly when test `i` holds and no earlier
      one does, and falls through exactly when no test holds. */
  lemma {:induction false} FirstMatchSpec(order: seq<(SyntaxTest, string)>, d: Datum, i: nat)
    requires i < |order|
    requires Holds(order[i].0, d)
    requires forall j :: 0 <= j < i ==> !Holds(order[j].0, d)
    ensures FirstMatch(order, d) == order[i].1
  {
    if i > 0 {
      assert !Holds(order[0].0, d);
      FirstMatchSpec(order[1..], d, i - 1);
    }
  }

  lemma {:induction false} FirstMatchFallsThrough(order: seq<(SyntaxTest, string)>, d: Datum)
    requires forall j :: 0 <= j < |order| ==> !Holds(order[j].0, d)
    ensures FirstMatch(order, d) == UnknownExpressionType
  {
    if |order| > 0 {
      FirstMatchFallsThrough(order[1..], d);
    }
  }

  lemma {:induction false} FirstMatchFound(order: seq<(SyntaxTest, string)>, d: Datum)
    requires FirstMatch(order, d) != UnknownExpressionType
    ensures exists i :: 0 <= i < |order| && Holds(order[i].0, d) && FirstMatch(order, d) == order[i].1
  {
    if !Holds(order[0].0, d) {
      FirstMatchFound(order[1..], d);
      var i :| 0 <= i < |order[1..]| && Holds(order[1..][i].0, d) && FirstMatch(order[1..], d) == order[1..][i].1;
      assert Holds(order[i + 1].0, d);
    } else {
      assert Holds(order[0].0, d);
    }
  }

  /** `eval_dispatch` of 5.4.js:55-76: the test-and-branch chain.  The
      tests exclude one another, so the order of the chain does not matter:
      each handler is reached exactly when its own test holds. */
  function EvalDispatch54(exp: Datum): (r: string)
    ensures forall i :: 0 <= i < |Order54| ==> (r == Order54[i].1 <==> Holds(Order54[i].0, exp))
  {
    if IsSelfEvaluating(exp) then "ev_self_eval"
    else if IsVariable(exp) then "ev_variable"
    else if IsQuoted(exp) then "ev_quoted"
    else if IsAssignment(exp) then "ev_assignment"
    else if IsDefinition(exp) then "ev_definition"
    else if IsConditionalExpression(exp) then "ev_if"
    else if IsFunctionExpression(exp) then "ev_lambda"
    else if IsBlock(exp) then "ev_begin"
    else if IsApplication(exp) then "ev_application"
    else UnknownExpressionType
  }

  /** The chain branches to the first handler whose test holds, and reaches
      `unknown_expression_type` exactly when none holds. */
  lemma {:induction false} EvalDispatch54IsFirstMatch(exp: Datum)
    ensures EvalDispatch54(exp) == FirstMatch(Order54, exp)
    ensures EvalDispatch54(exp) == UnknownExpressionType <==>
      forall j :: 0 <= j < |Order54| ==> !Holds(Order54[j].0, exp)
  {
    if IsSelfEvaluating(exp) || IsVariable(exp) {
      FirstMatchSpec(Order54, exp, if IsSelfEvaluating(exp) then 0 else 1);
    } else if exp.Pair? && exp.hd.Str? {
      DispatchOnTag(exp);
    } else {
      FirstMatchFallsThrough(Order54, exp);
    }
  }

  /** The tagged part of the chain on a pair headed by a string. */
  lemma {:induction false} DispatchOnTag(exp: Datum)
    requires exp.Pair? && exp.hd.Str?
    ensures EvalDispatch54(exp) == FirstMatch(Order54, exp)
    ensures EvalDispatch54(exp) == UnknownExpressionType <==>
      forall j :: 0 <= j < |Order54| ==> !Holds(Order54[j].0, exp)
  {
    var i := FirstHolding(Order54, exp);
    if i < |Order54| {
      FirstMatchSpec(Order54, exp, i);
      assert 2 <= i && Order54[i].0 == Tagged(exp.hd.s);
    } else {
      assert !Holds(Order54[2].0, exp) && !Holds(Order54[3].0, exp) && !Holds(Order54[4].0, exp);
      assert !Holds(Order54[5].0, exp) && !Holds(Order54[6].0, exp);
      assert !Holds(Order54[7].0, exp) && !Holds(Order54[8].0, exp);
      FirstMatchFallsThrough(Order54, exp);
    }
  }

  /** The index of the first test that holds, or the number of tests. */
  function FirstHolding(order: seq<(SyntaxTest, string)>, d: Datum): (i: nat)
    ensures i <= |order|
    ensures i < |order| ==> Holds(order[i].0, d)
    ensures forall j :: 0 <= j < i ==> !Holds(order[j].0, d)
  {
    if |order| == 0 then 0
    else if Holds(order[0].0, d) then 0
    else 1 + FirstHolding(order[1..], d)
  }
}
