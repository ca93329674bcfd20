/**
  What registers, stack slots and vector cells hold, the two value
  conventions of the drafts, and the index-addressed vectors behind
  `the_heads`, `the_tails` and their siblings.
 */
module Values {
  import opened HostData
  import opened Errors
  import TP = TypedPointers
  import DP = DraftPointers

  /** Which draft's conventions the machine follows: `Typed` is
      4.1_to_register.js (wrapped constants and operands, typed free pointer),
      `Raw` is 5.3.js (raw constants, operations applied directly). */
  datatype Draft = Typed | Raw

  /** The vectors the machine creates with `make_vector()`. */
  datatype VecId = TheHeads | TheTails | NewHeads | NewTails | ProgHeads | ProgTails

  /** Register contents.  `Code(k)` is the instruction suffix starting at
      instruction `k` (a label value); the empty suffix is JavaScript `null`,
      so it is `Data(Null)`.  `Unassigned` is the initial "*unassigned*". */
  datatype Value = Data(d: Datum) | Code(k: nat) | Vec(id: VecId) | Unassigned

  type Vector = map<int, Value>
  type Memory = map<VecId, Vector>

  function Cells(mem: Memory, id: VecId): Vector
  {
    if id in mem then mem[id] else map[]
  }

  const UnassignedText: string := "*unassigned*"

  /** The host value a native function receives for a register value. */
  function AsDatum(v: Value): (r: Option<Datum>)
    ensures r.Some? <==> (v.Data? || v.Unassigned?)
  {
    match v
    case Data(d) => Some(d)
    case Unassigned => Some(Str(UnassignedText))
    case _ => None
  }

  /** JavaScript truthiness of a register value, as `if (get_contents(flag))`
      tests it. */
  predicate Truthy(v: Value)
  {
    match v
    case Data(d) =>
      (match d
       case Num(n) => n != 0
       case Bool(b) => b
       case Str(s) => s != ""
       case Null => false
       case Undefined => false
       case Pair(_, _) => true)
    case Code(_) => true
    case Vec(_) => true
    case Unassigned => true
  }

  /** The branch condition the machine uses.  In the typed draft a test's
      boolean comes back wrapped as `("bool", b)`, a pair and therefore always
      truthy; the intended reading is `b`.  Anything else is tested for
      truthiness, as in the raw draft. */
  predicate FlagHolds(draft: Draft, v: Value)
  {
    if draft.Typed? && v.Data? && TP.IsBoolPtr(v.d) && v.d.tl.Bool? then v.d.tl.b
    else Truthy(v)
  }

  /** As written, a wrapped `false` still makes `branch` jump. */
  lemma {:induction false} WrappedFalseIsTruthy()
    ensures TP.WrapPtr(Bool(false)).Ok?
    ensures Truthy(Data(TP.WrapPtr(Bool(false)).value))
    ensures !FlagHolds(Typed, Data(TP.WrapPtr(Bool(false)).value))
  {
  }

  /** The corrected condition reads a wrapped boolean in the typed draft and
      a raw boolean in both drafts; in the raw draft it is plain truthiness. */
  lemma {:induction false} FlagHoldsReadsBooleans(b: bool, v: Value)
    ensures FlagHolds(Typed, Data(TP.WrapPtr(Bool(b)).value)) == b
    ensures FlagHolds(Typed, Data(Bool(b))) == b && FlagHolds(Raw, Data(Bool(b))) == b
    ensures FlagHolds(Raw, v) == Truthy(v)
  {
  }

  /** The slot a vector operation addresses.  4.1: `unwrap_ptr(idx)`; 5.3:
      the pointer's address when `is_ptr(idx)`, otherwise `idx` itself. */
  function IndexOf(draft: Draft, idx: Value): (r: Result<int>)
    ensures draft.Typed? && r.Ok? ==> idx.Data? && idx.d.Pair? && idx.d.tl == Num(r.value)
    ensures draft.Raw? && r.Ok? ==>
      idx == Data(Num(r.value)) || idx == Data(DP.MakePtr(Num(r.value)))
  {
    match idx
    case Data(d) =>
      if draft.Typed? then
        var raw :- TP.UnwrapPtr(d);
        if raw.Num? then Ok(raw.n) else Err(BadIndex)
      else
        var raw := if DP.IsPtr(d) then d.tl else d;
        if raw.Num? then Ok(raw.n) else Err(BadIndex)
    case _ => Err(BadIndex)
  }

  /** In the raw draft a pointer and its raw address select the same slot; in
      the typed draft a `ptr` pointer selects the slot of its payload. */
  lemma {:induction false} PointerAndAddressSameSlot(n: int)
    ensures IndexOf(Raw, Data(DP.MakePtr(Num(n)))) == Ok(n)
    ensures IndexOf(Raw, Data(Num(n))) == Ok(n)
    ensures IndexOf(Typed, Data(TP.MakePtrPtr(n))) == Ok(n)
  {
  }

  /** `vector_ref`: the cell's value, or `undefined` for a hole. */
  function VectorRef(draft: Draft, mem: Memory, vec: Value, idx: Value): (r: Result<Value>)
    ensures r.Ok? <==> vec.Vec? && IndexOf(draft, idx).Ok?
    ensures r.Ok? && IndexOf(draft, idx).value !in Cells(mem, vec.id) ==> r.value == Data(Undefined)
    ensures r.Ok? && IndexOf(draft, idx).value in Cells(mem, vec.id) ==>
      r.value == Cells(mem, vec.id)[IndexOf(draft, idx).value]
  {
    var n :- IndexOf(draft, idx);
    if !vec.Vec? then Err(BadOperand)
    else
      var cells := Cells(mem, vec.id);
      Ok(if n in cells then cells[n] else Data(Undefined))
  }

  /** `vector_set`. */
  function VectorSet(draft: Draft, mem: Memory, vec: Value, idx: Value, val: Value): (r: Result<Memory>)
    ensures r.Ok? <==> vec.Vec? && IndexOf(draft, idx).Ok?
  {
    var n :- IndexOf(draft, idx);
    if !vec.Vec? then Err(BadOperand)
    else Ok(mem[vec.id := Cells(mem, vec.id)[n := val]])
  }

  /** A written cell reads back the written value, through any index that
      selects the same slot (in the raw draft, `make_ptr(n)` and `n`); every
      other cell of every vector reads as before. */
  lemma {:induction false} VectorSetThenRef(draft: Draft, mem: Memory, vec: Value, idx: Value, val: Value,
                         vec': Value, idx': Value)
    requires VectorSet(draft, mem, vec, idx, val).Ok?
    ensures VectorRef(draft, VectorSet(draft, mem, vec, idx, val).value, vec, idx) == Ok(val)
    ensures vec' == vec && IndexOf(draft, idx') == IndexOf(draft, idx) ==>
      VectorRef(draft, VectorSet(draft, mem, vec, idx, val).value, vec', idx') == Ok(val)
    ensures vec'.Vec? && IndexOf(draft, idx').Ok? &&
            (vec'.id != vec.id || IndexOf(draft, idx').value != IndexOf(draft, idx).value) ==>
      VectorRef(draft, VectorSet(draft, mem, vec, idx, val).value, vec', idx') ==
      VectorRef(draft, mem, vec', idx')
  {
  }
}
