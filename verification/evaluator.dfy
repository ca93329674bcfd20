/**
  The evaluator's controller routines that inspect the list-structured heap
  (4.1_to_register.js:160-187): `is_tagged_list` and the `eval_dispatch`
  test chain.  Each routine is modelled by what its comments and labels
  describe, as a pure function over the heap vectors, under the typed
  draft's conventions: registers hold typed pointers, `vector_ref` unwraps
  its index, and `===` is a primitive that compares unwrapped payloads.
 */
module Evaluator {
  import opened HostData
  import opened Errors
  import opened Values
  import opened Syntax
  import TP = TypedPointers
  import Heap

  /** `wrap_ptr` of an atom. */
  function Wrap(x: Datum): (d: Datum)
    requires !x.Pair?
    ensures TP.IsPtr(d) && !TP.IsPtrPtr(d) && d.tl == x
  {
    TP.WrapUnwrap(x);
    TP.WrapPtr(x).value
  }

  /** `vector_ref(v, p)` on a heap vector whose cells hold host values; a
      hole reads as `undefined`, and a cell holding anything else is refused. */
  function Ref(v: Vector, p: Datum): (r: Result<Datum>)
    ensures p.Pair? && p.tl.Num? && p.tl.n in v && v[p.tl.n].Data? ==> r == Ok(v[p.tl.n].d)
  {
    var n :- IndexOf(Typed, Data(p));
    if n !in v then Ok(Undefined)
    else if v[n].Data? then Ok(v[n].d)
    else Err(BadOperand)
  }

  /** Every read the routines make is the machine's own `vector_ref`, on
      whichever heap vector holds the cells. */
  lemma {:induction false} RefIsVectorRef(v: Vector, p: Datum, id: VecId, mem: Memory)
    requires Ref(v, p).Ok?
    ensures VectorRef(Typed, mem[id := v], Vec(id), Data(p)) == Ok(Data(Ref(v, p).value))
  {
  }

  /** `===` as a primitive of the typed draft: both operands are unwrapped
      and the payloads compared. */
  function StrictEquals(x: Datum, y: Datum): (r: Result<bool>)
    ensures r.Ok? <==> x.Pair? && y.Pair?
    ensures r.Err? ==> r.error == NotAPair(if x.Pair? then y else x)
  {
    var u :- TP.UnwrapPtr(x);
    var w :- TP.UnwrapPtr(y);
    Ok(u == w)
  }

  /** Two wrapped atoms are `===` exactly when the atoms are equal, and a
      `ptr` pointer is never `===` to a wrapped string. */
  lemma {:induction false} StrictEqualsWrapped(a: Datum, b: Datum, i: int, s: string)
    requires !a.Pair? && !b.Pair?
    ensures StrictEquals(Wrap(a), Wrap(b)) == Ok(a == b)
    ensures StrictEquals(TP.MakePtrPtr(i), Wrap(Str(s))) == Ok(false)
  {
  }

  // ---- is_tagged_list ----

  /** The `is_tagged_list` routine: `res` is false unless `a` is a `ptr`
      pointer, and otherwise whether the head of `a`'s cell is `===` to `b`. */
  function IsTaggedListRoutine(heads: Vector, a: Datum, b: Datum): (r: Result<bool>)
    ensures !TP.IsPtrPtr(a) ==> r == Ok(false)
    ensures r == Ok(true) ==> TP.IsPtrPtr(a) && a.tl.Num? && a.tl.n in heads && heads[a.tl.n].Data? &&
                              heads[a.tl.n].d.Pair? && b.Pair? && heads[a.tl.n].d.tl == b.tl
  {
    if !TP.IsPtrPtr(a) then Ok(false)
    else
      var h :- Ref(heads, a);
      StrictEquals(h, b)
  }

  /** On an installed syntax tree the routine answers `is_tagged_list` of the
      tree: the pair's cell holds its head, wrapped when it is an atom. */
  lemma {:induction false} TaggedListOnInstalledTree(t: Datum, free: nat, heads: Vector, tails: Vector,
                                  heads2: Vector, tails2: Vector, tag: string)
    requires Heap.AgreeOn(Heap.Install(t, free, heads, tails), free, heads2, tails2)
    ensures IsTaggedListRoutine(heads2, Heap.Install(t, free, heads, tails).root, Wrap(Str(tag))) ==
            Ok(IsTaggedList(t, tag))
  {
    TP.WrapUnwrap(t);
    if t.Pair? {
      var h := Heap.Install(t.hd, free + 1, heads, tails);
      Heap.AgreeOnCell(t, free, heads, tails, heads2, tails2);
      Heap.InstallRootKind(t.hd, free + 1, heads, tails);
      TP.WrapUnwrap(t.hd);
      assert Ref(heads2, TP.MakePtrPtr(free)) == Ok(h.root);
      if t.hd.Pair? {
        assert h.root == TP.MakePtrPtr(free + 1);
      } else {
        assert h.root.tl == t.hd;
      }
    }
  }

  // ---- eval_dispatch ----

  /** One test of the chain applied to the pointer in `exp`.  The tagged
      tests run `is_tagged_list` against the wrapped tag.  The syntax
      predicates `is_self_evaluating` and `is_variable` are not defined in
      the file; they are read as applying to the expression the pointer
      stands for, so a `ptr` pointer (a pair node) satisfies neither. */
  function TestHolds(test: SyntaxTest, heads: Vector, exp: Datum): (r: Result<bool>)
    ensures !test.Tagged? ==> r.Ok? && (r.value ==> exp.Pair? && !TP.IsPtrPtr(exp))
  {
    match test
    case SelfEvaluating => Ok(exp.Pair? && !TP.IsPtrPtr(exp) && IsSelfEvaluating(exp.tl))
    case Variable => Ok(exp.Pair? && !TP.IsPtrPtr(exp) && IsVariable(exp.tl))
    case Tagged(tag) => IsTaggedListRoutine(heads, exp, Wrap(Str(tag)))
  }

  /** A test-and-branch chain over the heap: the label of the first test
      that holds, or `unknown_expression_type`; a failing test stops it. */
  function Dispatch(order: seq<(SyntaxTest, string)>, heads: Vector, exp: Datum): (r: Result<string>)
    ensures r.Ok? && r.value != Syntax.UnknownExpressionType ==> exists i :: 0 <= i < |order| && order[i].1 == r.value
  {
    if |order| == 0 then Ok(Syntax.UnknownExpressionType)
    else
      var holds :- TestHolds(order[0].0, heads, exp);
      if holds then Ok(order[0].1)
      else
        var r :- Dispatch(order[1..], heads, exp);
        assert r != Syntax.UnknownExpressionType ==> exists i :: 0 <= i < |order[1..]| && order[1..][i].1 == r;
        assert r != Syntax.UnknownExpressionType ==> exists i :: 0 <= i < |order| && order[i].1 == r by {
          if r != Syntax.UnknownExpressionType {
            var i :| 0 <= i < |order[1..]| && order[1..][i].1 == r;
            assert order[i + 1].1 == r;
          }
        }
        Ok(r)
  }

  /** `eval_dispatch` of 4.1_to_register.js:174-187. */
  function EvalDispatch41(heads: Vector, exp: Datum): (r: Result<string>)
    ensures r.Ok? && r.value != Syntax.UnknownExpressionType ==> exists i :: 0 <= i < |Order41| && Order41[i].1 == r.value
  {
    Dispatch(Order41, heads, exp)
  }

  /** On an installed tree every test answers the syntax predicate of the
      tree. */
  lemma {:induction false} TestHoldsOnInstalledTree(test: SyntaxTest, t: Datum, free: nat, heads: Vector, tails: Vector,
                                 heads2: Vector, tails2: Vector)
    requires Heap.AgreeOn(Heap.Install(t, free, heads, tails), free, heads2, tails2)
    ensures TestHolds(test, heads2, Heap.Install(t, free, heads, tails).root) == Ok(Holds(test, t))
  {
    Heap.InstallRootKind(t, free, heads, tails);
    TP.WrapUnwrap(t);
    if test.Tagged? {
      TaggedListOnInstalledTree(t, free, heads, tails, heads2, tails2, test.tag);
    }
  }

  /** The chain over the heap branches where the reference `FirstMatch`
      does on the tree itself. */
  lemma {:induction false} DispatchOnInstalledTree(order: seq<(SyntaxTest, string)>, t: Datum, free: nat,
                                                   heads: Vector, tails: Vector, heads2: Vector, tails2: Vector)
    requires Heap.AgreeOn(Heap.Install(t, free, heads, tails), free, heads2, tails2)
    ensures Dispatch(order, heads2, Heap.Install(t, free, heads, tails).root) == Ok(FirstMatch(order, t))
  {
    if |order| > 0 {
      TestHoldsOnInstalledTree(order[0].0, t, free, heads, tails, heads2, tails2);
      DispatchOnInstalledTree(order[1..], t, free, heads, tails, heads2, tails2);
    }
  }

  /** `eval_dispatch` on a tree installed by `install_parsetree` branches to
      the handler of the first test in the order of 4.1_to_register.js that
      holds of the tree, and to `unknown_expression_type` when none does. */
  lemma {:induction false} EvalDispatch41OnParsetree(t: Datum)
    ensures var r := Heap.InstallParsetree(t);
      EvalDispatch41(r.heads, r.root) == Ok(FirstMatch(Order41, t))
  {
    DispatchOnTree(Order41, t, 0, map[], map[]);
  }

  /** The machine's `install_parsetree` request writes the program into
      `prog_heads` and `prog_tails`; `eval_dispatch` reading the program's
      heads from there branches as on the tree itself. */
  lemma {:induction false} EvalDispatch41OnProgram(mem: Memory, t: Datum)
    ensures var r := Heap.InstallParsetree(t);
      var m := mem[ProgHeads := r.heads][ProgTails := r.tails];
      EvalDispatch41(Cells(m, ProgHeads), r.root) == Ok(FirstMatch(Order41, t))
  {
    var r := Heap.InstallParsetree(t);
    var m := mem[ProgHeads := r.heads][ProgTails := r.tails];
    assert Cells(m, ProgHeads) == r.heads;
    EvalDispatch41OnParsetree(t);
  }

  lemma {:induction false} DispatchOnTree(order: seq<(SyntaxTest, string)>, t: Datum, free: nat, heads: Vector, tails: Vector)
    ensures var r := Heap.Install(t, free, heads, tails);
      Dispatch(order, r.heads, r.root) == Ok(FirstMatch(order, t))
  {
    var r := Heap.Install(t, free, heads, tails);
    Heap.InstallAgreesWithResult(t, free, heads, tails);
    DispatchOnInstalledTree(order, t, free, heads, tails, r.heads, r.tails);
  }
}
