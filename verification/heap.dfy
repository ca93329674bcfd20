/**
  The list-structured heap of the typed draft: the `pair` and `list`
  controller routines, `make_compound_function`, and `install_parsetree`.
  The routines are modelled by what their comments and labels describe, as
  pure functions over the `the_heads`/`the_tails` vectors; heap addresses
  appear in registers as typed `("ptr", i)` pointers.
 */
module Heap {
  import opened HostData
  import opened Errors
  import opened Values
  import TP = TypedPointers

  /** The typed pointer to heap cell `i`, as a register value. */
  function PtrTo(i: int): Value
  {
    Data(TP.MakePtrPtr(i))
  }

  /** `make_null_ptr()`, the empty list of the heap. */
  function NullList(): Value
  {
    Data(TP.MakeNullPtr())
  }

  // ---- pair ----

  datatype Allocation = GcTriggered | Allocated(mem: Memory, res: int, free: int)

  /** The `pair` routine: when `free` has reached `SIZE` control goes to
      `begin_garbage_collection`; otherwise the cell at `free` receives `a`
      and `b`, `res` is the old `free`, and `free` moves on by one. */
  function AllocPair(mem: Memory, free: int, size: int, a: Value, b: Value): (r: Allocation)
    ensures r.GcTriggered? <==> free == size
    ensures r.Allocated? ==> r.res == free && r.free == free + 1
    ensures r.Allocated? ==> Cells(r.mem, TheHeads) == Cells(mem, TheHeads)[free := a]
    ensures r.Allocated? ==> Cells(r.mem, TheTails) == Cells(mem, TheTails)[free := b]
    ensures r.Allocated? ==> forall v :: v != TheHeads && v != TheTails ==> Cells(r.mem, v) == Cells(mem, v)
  {
    if free == size then GcTriggered
    else
      var heads := Cells(mem, TheHeads)[free := a];
      var tails := Cells(mem, TheTails)[free := b];
      Allocated(mem[TheHeads := heads][TheTails := tails], free, free + 1)
  }

  /** The allocation is the routine's two `vector_set` operations at the
      pointer held in `free`: the new cell reads back `a` and `b`, and every
      other cell of every vector reads as before. */
  lemma {:induction false} AllocPairIsTwoVectorSets(mem: Memory, free: int, size: int, a: Value, b: Value,
                                 v: VecId, i: int)
    requires free != size
    ensures var m1 := VectorSet(Typed, mem, Vec(TheHeads), PtrTo(free), a);
      && m1.Ok?
      && VectorSet(Typed, m1.value, Vec(TheTails), PtrTo(free), b).Ok?
      && AllocPair(mem, free, size, a, b).mem ==
           VectorSet(Typed, m1.value, Vec(TheTails), PtrTo(free), b).value
    ensures var r := AllocPair(mem, free, size, a, b).mem;
      && VectorRef(Typed, r, Vec(TheHeads), PtrTo(free)) == Ok(a)
      && VectorRef(Typed, r, Vec(TheTails), PtrTo(free)) == Ok(b)
      && ((v != TheHeads && v != TheTails) || i != free ==>
            VectorRef(Typed, r, Vec(v), PtrTo(i)) == VectorRef(Typed, mem, Vec(v), PtrTo(i)))
  {
    PointerAndAddressSameSlot(free);
    PointerAndAddressSameSlot(i);
  }

  // ---- list ----

  datatype ListOutcome = Built(mem: Memory, free: int, stack: seq<Value>, list: Value) | ListGc | ListFail(error: Error)

  /** `list_loop`: while the count `c` is positive, pop an element and pair
      it onto the list built so far. */
  function ListLoop(mem: Memory, free: int, size: int, stack: seq<Value>, c: nat, b: Value): (r: ListOutcome)
    decreases c
  {
    if c == 0 then Built(mem, free, stack, b)
    else if |stack| == 0 then ListFail(EmptyStack)
    else
      match AllocPair(mem, free, size, stack[0], b)
      case GcTriggered => ListGc
      case Allocated(mem', res, free') => ListLoop(mem', free', size, stack[1..], c - 1, PtrTo(res))
  }

  /** The `list` routine: build a list of the top `count` stack elements,
      starting from the empty list, so the element popped first ends up last. */
  function BuildList(mem: Memory, free: int, size: int, stack: seq<Value>, count: nat): (r: ListOutcome)
    ensures r.ListFail? ==> r.error == EmptyStack && |stack| < count
    ensures r.ListGc? ==> free <= size < free + count
    ensures count <= |stack| && !(free <= size < free + count) ==> r.Built?
    ensures r.Built? ==> r.free == free + count && count <= |stack| && r.stack == stack[count..]
  {
    ListLoopOutcome(mem, free, size, stack, count, NullList());
    ListLoop(mem, free, size, stack, count, NullList())
  }

  /** Where `ListLoop` stops: it fails only on a short stack, collects
      garbage only when `free` meets `SIZE` on the way, and otherwise uses
      exactly `c` fresh cells and pops exactly `c` elements. */
  lemma {:induction false} ListLoopOutcome(mem: Memory, free: int, size: int, stack: seq<Value>, c: nat, b: Value)
    ensures var r := ListLoop(mem, free, size, stack, c, b);
      && (r.ListFail? ==> r.error == EmptyStack && |stack| < c)
      && (r.ListGc? ==> free <= size < free + c)
      && (c <= |stack| && !(free <= size < free + c) ==> r.Built?)
      && (r.Built? ==> r.free == free + c && c <= |stack| && r.stack == stack[c..])
  {
    ListLoopStops(mem, free, size, stack, c, b);
    ListLoopPops(mem, free, size, stack, c, b);
  }

  /** The ways `ListLoop` can stop short: an empty stack, or `free` meeting `SIZE`. */
  lemma {:induction false} ListLoopStops(mem: Memory, free: int, size: int, stack: seq<Value>, c: nat, b: Value)
    ensures var r := ListLoop(mem, free, size, stack, c, b);
      && (r.ListFail? ==> r.error == EmptyStack && |stack| < c)
      && (r.ListGc? ==> free <= size < free + c)
      && (c <= |stack| && !(free <= size < free + c) ==> r.Built?)
    decreases c
  {
    if c > 0 && |stack| > 0 && free != size {
      var m1 := AllocPair(mem, free, size, stack[0], b).mem;
      assert ListLoop(mem, free, size, stack, c, b) == ListLoop(m1, free + 1, size, stack[1..], c - 1, PtrTo(free));
      ListLoopStops(m1, free + 1, size, stack[1..], c - 1, PtrTo(free));
    }
  }

  /** A finished `ListLoop` has used `c` cells and popped `c` elements. */
  lemma {:induction false} ListLoopPops(mem: Memory, free: int, size: int, stack: seq<Value>, c: nat, b: Value)
    ensures var r := ListLoop(mem, free, size, stack, c, b);
      r.Built? ==> r.free == free + c && c <= |stack| && r.stack == stack[c..]
    decreases c
  {
    if c > 0 && |stack| > 0 && free != size {
      var m1 := AllocPair(mem, free, size, stack[0], b).mem;
      assert ListLoop(mem, free, size, stack, c, b) == ListLoop(m1, free + 1, size, stack[1..], c - 1, PtrTo(free));
      ListLoopPops(m1, free + 1, size, stack[1..], c - 1, PtrTo(free));
      if c <= |stack| {
        assert stack[1..][c - 1..] == stack[c..];
      }
    }
  }

  /** A finished `ListLoop` writes only the cells `free` to `free + c - 1`
      of the two heap vectors. */
  lemma {:induction false} ListLoopFrame(mem: Memory, free: int, size: int, stack: seq<Value>, c: nat, b: Value, i: int)
    requires ListLoop(mem, free, size, stack, c, b).Built? && !(free <= i < free + c)
    ensures var r := ListLoop(mem, free, size, stack, c, b);
      && (i in Cells(r.mem, TheHeads) <==> i in Cells(mem, TheHeads))
      && (i in Cells(r.mem, TheTails) <==> i in Cells(mem, TheTails))
      && (i in Cells(mem, TheHeads) ==> Cells(r.mem, TheHeads)[i] == Cells(mem, TheHeads)[i])
      && (i in Cells(mem, TheTails) ==> Cells(r.mem, TheTails)[i] == Cells(mem, TheTails)[i])
      && (forall v :: v != TheHeads && v != TheTails ==> Cells(r.mem, v) == Cells(mem, v))
    decreases c
  {
    if c > 0 {
      ListLoopFrame(AllocPair(mem, free, size, stack[0], b).mem, free + 1, size, stack[1..], c - 1, PtrTo(free), i);
    }
  }

  /** The cells a finished `ListLoop` wrote: cell `free + j` holds the `j`-th
      popped element and points back at the cell before it (the first one at
      the starting list `b`), and the result points at the last of them. */
  lemma {:induction false} ListLoopLayout(mem: Memory, free: int, size: int, stack: seq<Value>, c: nat, b: Value)
    requires ListLoop(mem, free, size, stack, c, b).Built?
    ensures var r := ListLoop(mem, free, size, stack, c, b);
      && r.list == (if c == 0 then b else PtrTo(free + c - 1))
      && Chain(r.mem, free, stack, b, c)
    decreases c
  {
    ListLoopOutcome(mem, free, size, stack, c, b);
    if c > 0 {
      var m1 := AllocPair(mem, free, size, stack[0], b).mem;
      ListLoopLayout(m1, free + 1, size, stack[1..], c - 1, PtrTo(free));
      ListLoopFrame(m1, free + 1, size, stack[1..], c - 1, PtrTo(free), free);
      var r := ListLoop(m1, free + 1, size, stack[1..], c - 1, PtrTo(free));
      assert r == ListLoop(mem, free, size, stack, c, b);
      assert ChainCell(r.mem, free, stack, b, 0);
      ChainExtend(r.mem, free, stack, b, c);
    }
  }

  /** A first cell followed by a chain one shorter, starting one cell later and
      pointing back at the first cell, is a chain. */
  lemma {:induction false} ChainExtend(mem: Memory, free: int, stack: seq<Value>, b: Value, c: nat)
    requires 0 < c <= |stack|
    requires ChainCell(mem, free, stack, b, 0)
    requires Chain(mem, free + 1, stack[1..], PtrTo(free), c - 1)
    ensures Chain(mem, free, stack, b, c)
  {
    forall k | 0 < k < c
      ensures ChainCell(mem, free, stack, b, k)
    {
      assert ChainCell(mem, free + 1, stack[1..], PtrTo(free), k - 1);
      assert stack[1..][k - 1] == stack[k];
      assert (free + 1) + (k - 1) == free + k;
    }
  }

  /** The elements of a heap list, following tails until the null pointer. */
  function ListValues(mem: Memory, p: Value, fuel: nat): Option<seq<Value>>
    decreases fuel
  {
    if fuel == 0 then None
    else if p == NullList() then Some([])
    else if p.Data? && TP.IsPtrPtr(p.d) && p.d.tl.Num? &&
            p.d.tl.n in Cells(mem, TheHeads) && p.d.tl.n in Cells(mem, TheTails) then
      match ListValues(mem, Cells(mem, TheTails)[p.d.tl.n], fuel - 1)
      case Some(rest) => Some([Cells(mem, TheHeads)[p.d.tl.n]] + rest)
      case None => None
    else None
  }

  function Reverse<T>(s: seq<T>): (r: seq<T>)
    ensures |r| == |s|
    ensures forall i :: 0 <= i < |s| ==> r[i] == s[|s| - 1 - i]
  {
    if |s| == 0 then [] else [s[|s| - 1]] + Reverse(s[..|s| - 1])
  }

  /** Cell `free + k` holds `stack[k]` and points back at the cell before
      it, the first one at the list `b`. */
  predicate ChainCell(mem: Memory, free: int, stack: seq<Value>, b: Value, k: nat)
    requires k < |stack|
  {
    && free + k in Cells(mem, TheHeads) && Cells(mem, TheHeads)[free + k] == stack[k]
    && free + k in Cells(mem, TheTails)
    && Cells(mem, TheTails)[free + k] == (if k == 0 then b else PtrTo(free + k - 1))
  }

  /** Cells `free` to `free + j - 1` hold `stack[0..j]` as a chain. */
  predicate Chain(mem: Memory, free: int, stack: seq<Value>, b: Value, j: nat)
  {
    j <= |stack| && forall k :: 0 <= k < j ==> ChainCell(mem, free, stack, b, k)
  }

  /** A chain of cells laid out as `ListLoopLayout` describes reads back as
      the popped elements in reverse order. */
  lemma {:induction false} ChainReadsBack(mem: Memory, free: int, stack: seq<Value>, j: nat)
    requires Chain(mem, free, stack, NullList(), j)
    ensures ListValues(mem, if j == 0 then NullList() else PtrTo(free + j - 1), j + 1) == Some(Reverse(stack[..j]))
    decreases j
  {
    if j > 0 {
      assert ChainCell(mem, free, stack, NullList(), j - 1);
      ChainReadsBack(mem, free, stack, j - 1);
      var i := free + j - 1;
      assert Cells(mem, TheHeads)[i] == stack[j - 1];
      assert Cells(mem, TheTails)[i] == (if j - 1 == 0 then NullList() else PtrTo(free + (j - 1) - 1));
      assert TP.IsPtrPtr(PtrTo(i).d) && PtrTo(i).d.tl == Num(i);
      assert PtrTo(i) != NullList();
      assert stack[..j] == stack[..j - 1] + [stack[j - 1]];
      assert Reverse(stack[..j]) == [stack[j - 1]] + Reverse(stack[..j - 1]);
    }
  }

  /** `list(x1, ..., xn)` from the stack: with enough stack and no collection,
      the result is a fresh `n`-element heap list whose elements are the top
      `n` stack values, the deepest first. */
  lemma {:induction false} BuildListReadsBack(mem: Memory, free: int, size: int, stack: seq<Value>, count: nat)
    requires count <= |stack| && !(free <= size < free + count)
    ensures BuildList(mem, free, size, stack, count).Built?
    ensures var r := BuildList(mem, free, size, stack, count);
      && r.free == free + count && r.stack == stack[count..]
      && ListValues(r.mem, r.list, count + 1) == Some(Reverse(stack[..count]))
  {
    ListLoopOutcome(mem, free, size, stack, count, NullList());
    ListLoopLayout(mem, free, size, stack, count, NullList());
    var r := BuildList(mem, free, size, stack, count);
        ChainReadsBack(r.mem, free, stack, count);
  }

  // ---- make_compound_function ----

  /** `make_compound_function`: the list of the parameters `unev`, the body
      `make_prog_ptr(exp)` and the environment `env`, built by `list` from
      the stack; `continue` is saved around the call, so the stack comes
      back as it was. */
  function MakeCompoundFunction(mem: Memory, free: int, size: int, stack: seq<Value>,
                                cont: Value, unev: Value, exp: Datum, env: Value): (r: ListOutcome)
    ensures r.Built? ==> r.stack == stack && r.free == free + 3
    ensures r.ListGc? <==> free <= size < free + 3
    ensures !r.ListFail?
  {
    var saved := [env, Data(TP.MakeProgPtr(exp)), unev, cont] + stack;
    ListLoopOutcome(mem, free, size, saved, 3, NullList());
    var built := BuildList(mem, free, size, saved, 3);
    if built.Built? then
      assert built.stack == saved[3..] && saved[3..] == [cont] + stack;
      Built(built.mem, built.free, built.stack[1..], built.list)
    else built
  }

  /** The function object reads back as the three-element list
      (parameters, body pointer, environment). */
  lemma {:induction false} CompoundFunctionReadsBack(mem: Memory, free: int, size: int, stack: seq<Value>,
                                  cont: Value, unev: Value, exp: Datum, env: Value)
    requires !(free <= size < free + 3)
    ensures var r := MakeCompoundFunction(mem, free, size, stack, cont, unev, exp, env);
      && r.Built?
      && ListValues(r.mem, r.list, 4) == Some([unev, Data(TP.MakeProgPtr(exp)), env])
  {
    var saved := [env, Data(TP.MakeProgPtr(exp)), unev, cont] + stack;
    BuildListReadsBack(mem, free, size, saved, 3);
    assert Reverse(saved[..3]) == [unev, Data(TP.MakeProgPtr(exp)), env];
  }

  // ---- install_parsetree ----

  function PairCount(t: Datum): nat
  {
    if t.Pair? then 1 + PairCount(t.hd) + PairCount(t.tl) else 0
  }

  function Depth(t: Datum): nat
  {
    if t.Pair? then 1 + (if Depth(t.hd) > Depth(t.tl) then Depth(t.hd) else Depth(t.tl)) else 0
  }

  datatype Installed = Installed(root: Datum, next: nat, heads: Vector, tails: Vector)

  /** `helper` of `install_parsetree`: an atom becomes its wrapped value; a
      pair takes the next free index, then its head and its tail are
      installed in that order and their results stored in the cell. */
  function Install(t: Datum, free: nat, heads: Vector, tails: Vector): (r: Installed)
    ensures r.next == free + PairCount(t)
    ensures TP.IsPtr(r.root)
    ensures t.Pair? ==> r.root == TP.MakePtrPtr(free)
    ensures !t.Pair? ==> r.root == TP.WrapPtr(t).value && r == Installed(r.root, free, heads, tails)
  {
    if !t.Pair? then Installed(TP.WrapPtr(t).value, free, heads, tails)
    else
      var index := free;
      var h := Install(t.hd, free + 1, heads, tails);
      var heads1 := h.heads[index := Data(h.root)];
      var tl := Install(t.tl, h.next, heads1, h.tails);
      Installed(TP.MakePtrPtr(index), tl.next, tl.heads, tl.tails[index := Data(tl.root)])
  }

  /** The installation writes every cell from `free` to `next - 1`. */
  lemma {:induction false} InstallCovers(t: Datum, free: nat, heads: Vector, tails: Vector, i: int)
    requires free <= i < Install(t, free, heads, tails).next
    ensures i in Install(t, free, heads, tails).heads && i in Install(t, free, heads, tails).tails
    decreases t
  {
    var h := Install(t.hd, free + 1, heads, tails);
    var heads1 := h.heads[free := Data(h.root)];
    if i == free {
      InstallFrame(t.tl, h.next, heads1, h.tails, i);
    } else if i < h.next {
      InstallCovers(t.hd, free + 1, heads, tails, i);
      InstallFrame(t.tl, h.next, heads1, h.tails, i);
    } else {
      InstallCovers(t.tl, h.next, heads1, h.tails, i);
    }
  }

  /** ... and no cell outside that range. */
  lemma {:induction false} InstallFrame(t: Datum, free: nat, heads: Vector, tails: Vector, i: int)
    requires !(free <= i < Install(t, free, heads, tails).next)
    ensures var r := Install(t, free, heads, tails);
      && (i in r.heads <==> i in heads) && (i in r.tails <==> i in tails)
      && (i in heads ==> r.heads[i] == heads[i]) && (i in tails ==> r.tails[i] == tails[i])
    decreases t
  {
    if t.Pair? {
      var h := Install(t.hd, free + 1, heads, tails);
      var heads1 := h.heads[free := Data(h.root)];
      InstallFrame(t.hd, free + 1, heads, tails, i);
      InstallFrame(t.tl, h.next, heads1, h.tails, i);
    }
  }

  /** The cells of the head's installation are final: the tail's
      installation and the parent's writes leave them alone ... */
  lemma {:induction false} HeadCellsKept(t: Datum, free: nat, heads: Vector, tails: Vector, i: int)
    requires t.Pair? && free < i < Install(t.hd, free + 1, heads, tails).next
    ensures var r := Install(t, free, heads, tails);
      var h := Install(t.hd, free + 1, heads, tails);
      && i in r.heads && i in r.tails && i in h.heads && i in h.tails
      && r.heads[i] == h.heads[i] && r.tails[i] == h.tails[i]
  {
    var h := Install(t.hd, free + 1, heads, tails);
    var heads1 := h.heads[free := Data(h.root)];
    var tl := Install(t.tl, h.next, heads1, h.tails);
    assert Install(t, free, heads, tails) == Installed(TP.MakePtrPtr(free), tl.next, tl.heads, tl.tails[free := Data(tl.root)]);
    InstallCovers(t.hd, free + 1, heads, tails, i);
    InstallFrame(t.tl, h.next, heads1, h.tails, i);
  }

  /** ... the parent's writes leave the tail's cells alone ... */
  lemma {:induction false} TailCellsKept(t: Datum, free: nat, heads: Vector, tails: Vector, i: int)
    requires t.Pair? && Install(t.hd, free + 1, heads, tails).next <= i < Install(t, free, heads, tails).next
    ensures var r := Install(t, free, heads, tails);
      var h := Install(t.hd, free + 1, heads, tails);
      var tl := Install(t.tl, h.next, h.heads[free := Data(h.root)], h.tails);
      && i in r.heads && i in r.tails && i in tl.heads && i in tl.tails
      && r.heads[i] == tl.heads[i] && r.tails[i] == tl.tails[i]
  {
    var h := Install(t.hd, free + 1, heads, tails);
    InstallCovers(t.tl, h.next, h.heads[free := Data(h.root)], h.tails, i);
  }

  /** ... and the pair's own cell holds the two sub-results. */
  lemma {:induction false} PairCellKept(t: Datum, free: nat, heads: Vector, tails: Vector)
    requires t.Pair?
    ensures var r := Install(t, free, heads, tails);
      var h := Install(t.hd, free + 1, heads, tails);
      var tl := Install(t.tl, h.next, h.heads[free := Data(h.root)], h.tails);
      && free in r.heads && free in r.tails
      && r.heads[free] == Data(h.root) && r.tails[free] == Data(tl.root)
  {
    var h := Install(t.hd, free + 1, heads, tails);
    InstallFrame(t.tl, h.next, h.heads[free := Data(h.root)], h.tails, free);
  }

  /** `install_parsetree` into empty vectors. */
  function InstallParsetree(t: Datum): (r: Installed)
    ensures r.next == PairCount(t)
    ensures t.Pair? ==> r.root == TP.MakePtrPtr(0)
  {
    Install(t, 0, map[], map[])
  }

  /** A tree read back from the heap: a `ptr` pointer is a pair node whose
      cell holds its head and tail; any other typed value is an atom. */
  function Rebuild(heads: Vector, tails: Vector, p: Datum, fuel: nat): Option<Datum>
    decreases fuel
  {
    if fuel == 0 || !p.Pair? then None
    else if p.hd == Str("ptr") then
      var i := p.tl;
      if i.Num? && i.n in heads && i.n in tails && heads[i.n].Data? && tails[i.n].Data? then
        var h := Rebuild(heads, tails, heads[i.n].d, fuel - 1);
        var t := Rebuild(heads, tails, tails[i.n].d, fuel - 1);
        if h.Some? && t.Some? then Some(Pair(h.value, t.value)) else None
      else None
    else Some(p.tl)
  }

  /** Reading a pair cell is reading its head and its tail. */
  lemma {:induction false} RebuildCell(heads: Vector, tails: Vector, i: int, fuel: nat, x: Datum, y: Datum, a: Datum, b: Datum)
    requires i in heads && i in tails && heads[i] == Data(x) && tails[i] == Data(y)
    requires Rebuild(heads, tails, x, fuel) == Some(a) && Rebuild(heads, tails, y, fuel) == Some(b)
    ensures Rebuild(heads, tails, TP.MakePtrPtr(i), fuel + 1) == Some(Pair(a, b))
  {
    assert TP.IsPtrPtr(TP.MakePtrPtr(i));
  }

  /** A wrapped atom reads back as the atom. */
  lemma {:induction false} RebuildAtom(heads: Vector, tails: Vector, t: Datum, fuel: nat)
    requires !t.Pair? && fuel > 0
    ensures Rebuild(heads, tails, TP.WrapPtr(t).value, fuel) == Some(t)
  {
    TP.WrapUnwrap(t);
  }

  /** Vectors that agree with the installed ones on the installed cells. */
  predicate AgreeOn(r: Installed, lo: int, heads: Vector, tails: Vector)
  {
    forall i :: lo <= i < r.next ==> AgreeAt(r, i, heads, tails)
  }

  /** The vectors hold what the installation stored in cell `i`. */
  predicate AgreeAt(r: Installed, i: int, heads: Vector, tails: Vector)
  {
    i in heads && i in tails && i in r.heads && i in r.tails &&
    heads[i] == r.heads[i] && tails[i] == r.tails[i]
  }

  /** Agreement with a pair's installation implies agreement with its
      head's installation ... */
  lemma {:induction false} AgreeOnHead(t: Datum, free: nat, heads: Vector, tails: Vector, heads2: Vector, tails2: Vector)
    requires t.Pair? && AgreeOn(Install(t, free, heads, tails), free, heads2, tails2)
    ensures AgreeOn(Install(t.hd, free + 1, heads, tails), free + 1, heads2, tails2)
  {
    var h := Install(t.hd, free + 1, heads, tails);
    forall i | free + 1 <= i < h.next
      ensures AgreeAt(h, i, heads2, tails2)
    {
      assert AgreeAt(Install(t, free, heads, tails), i, heads2, tails2);
      HeadCellsKept(t, free, heads, tails, i);
    }
  }

  /** ... with its tail's installation ... */
  lemma {:induction false} AgreeOnTail(t: Datum, free: nat, heads: Vector, tails: Vector, heads2: Vector, tails2: Vector)
    requires t.Pair? && AgreeOn(Install(t, free, heads, tails), free, heads2, tails2)
    ensures var h := Install(t.hd, free + 1, heads, tails);
      AgreeOn(Install(t.tl, h.next, h.heads[free := Data(h.root)], h.tails), h.next, heads2, tails2)
  {
    var h := Install(t.hd, free + 1, heads, tails);
    var tl := Install(t.tl, h.next, h.heads[free := Data(h.root)], h.tails);
    forall i | h.next <= i < tl.next
      ensures AgreeAt(tl, i, heads2, tails2)
    {
      assert AgreeAt(Install(t, free, heads, tails), i, heads2, tails2);
      TailCellsKept(t, free, heads, tails, i);
    }
  }

  /** ... and the pair's own cell, which holds the two sub-results. */
  lemma {:induction false} AgreeOnCell(t: Datum, free: nat, heads: Vector, tails: Vector, heads2: Vector, tails2: Vector)
    requires t.Pair? && AgreeOn(Install(t, free, heads, tails), free, heads2, tails2)
    ensures var h := Install(t.hd, free + 1, heads, tails);
      var tl := Install(t.tl, h.next, h.heads[free := Data(h.root)], h.tails);
      && free in heads2 && free in tails2
      && heads2[free] == Data(h.root) && tails2[free] == Data(tl.root)
  {
    assert AgreeAt(Install(t, free, heads, tails), free, heads2, tails2);
    PairCellKept(t, free, heads, tails);
  }

  /** Decoding the installed cells rebuilds the tree, whatever the vectors
      hold outside the cells the installation wrote. */
  lemma {:induction false} InstallRebuilds(t: Datum, free: nat, heads: Vector, tails: Vector,
                                           heads2: Vector, tails2: Vector, fuel: nat)
    requires AgreeOn(Install(t, free, heads, tails), free, heads2, tails2)
    requires fuel > Depth(t)
    ensures Rebuild(heads2, tails2, Install(t, free, heads, tails).root, fuel) == Some(t)
    decreases t, 1
  {
    if t.Pair? {
      InstallRebuildsPair(t, free, heads, tails, heads2, tails2, fuel - 1);
    } else {
      RebuildAtom(heads2, tails2, t, fuel);
    }
  }

  lemma {:induction false} InstallRebuildsPair(t: Datum, free: nat, heads: Vector, tails: Vector,
                                               heads2: Vector, tails2: Vector, f: nat)
    requires t.Pair? && AgreeOn(Install(t, free, heads, tails), free, heads2, tails2)
    requires f > Depth(t.hd) && f > Depth(t.tl)
    ensures Rebuild(heads2, tails2, TP.MakePtrPtr(free), f + 1) == Some(t)
    decreases t, 0
  {
    var h := Install(t.hd, free + 1, heads, tails);
    var heads1 := h.heads[free := Data(h.root)];
    var tl := Install(t.tl, h.next, heads1, h.tails);
    AgreeOnHead(t, free, heads, tails, heads2, tails2);
    AgreeOnTail(t, free, heads, tails, heads2, tails2);
    AgreeOnCell(t, free, heads, tails, heads2, tails2);
    InstallRebuilds(t.hd, free + 1, heads, tails, heads2, tails2, f);
    InstallRebuilds(t.tl, h.next, heads1, h.tails, heads2, tails2, f);
    RebuildCell(heads2, tails2, free, f, h.root, tl.root, t.hd, t.tl);
  }

  /** The `k`-th pair node of `t` in preorder. */
  function NodeAt(t: Datum, k: nat): (r: Datum)
    requires k < PairCount(t)
    ensures r.Pair? && PairCount(r) <= PairCount(t)
    decreases t
  {
    if k == 0 then t
    else if k <= PairCount(t.hd) then NodeAt(t.hd, k - 1)
    else NodeAt(t.tl, k - 1 - PairCount(t.hd))
  }

  /** Cell `i` decodes to `node` within `fuel` levels. */
  predicate CellDecodes(heads: Vector, tails: Vector, i: int, fuel: nat, node: Datum)
  {
    Rebuild(heads, tails, TP.MakePtrPtr(i), fuel) == Some(node)
  }

  /** Cells are numbered in preorder from `free`: cell `free + k` decodes to
      the `k`-th pair node of the tree, whatever the vectors hold outside the
      installed cells. */
  lemma {:induction false} InstallPreorder(t: Datum, free: nat, heads: Vector, tails: Vector,
                                           heads2: Vector, tails2: Vector, k: nat, fuel: nat)
    requires AgreeOn(Install(t, free, heads, tails), free, heads2, tails2)
    requires k < PairCount(t) && fuel > Depth(NodeAt(t, k))
    ensures CellDecodes(heads2, tails2, free + k, fuel, NodeAt(t, k))
    decreases t, 2
  {
    if k == 0 {
      InstallPreorderRoot(t, free, heads, tails, heads2, tails2, k, fuel);
    } else if k <= PairCount(t.hd) {
      InstallPreorderHead(t, free, heads, tails, heads2, tails2, k, fuel);
    } else {
      InstallPreorderTail(t, free, heads, tails, heads2, tails2, k, fuel);
    }
  }

  lemma {:induction false} InstallPreorderRoot(t: Datum, free: nat, heads: Vector, tails: Vector,
                                               heads2: Vector, tails2: Vector, k: nat, fuel: nat)
    requires AgreeOn(Install(t, free, heads, tails), free, heads2, tails2)
    requires k == 0 < PairCount(t) && fuel > Depth(NodeAt(t, k))
    ensures CellDecodes(heads2, tails2, free + k, fuel, NodeAt(t, k))
  {
    assert NodeAt(t, k) == t;
    InstallRebuilds(t, free, heads, tails, heads2, tails2, fuel);
  }

  lemma {:induction false} InstallPreorderHead(t: Datum, free: nat, heads: Vector, tails: Vector,
                                               heads2: Vector, tails2: Vector, k: nat, fuel: nat)
    requires t.Pair? && AgreeOn(Install(t, free, heads, tails), free, heads2, tails2)
    requires 0 < k <= PairCount(t.hd) && fuel > Depth(NodeAt(t, k))
    ensures CellDecodes(heads2, tails2, free + k, fuel, NodeAt(t, k))
    decreases t, 1
  {
    var j := k - 1;
    assert NodeAt(t, k) == NodeAt(t.hd, j);
    AgreeOnHead(t, free, heads, tails, heads2, tails2);
    InstallPreorderAt(t.hd, free + 1, heads, tails, heads2, tails2, j, fuel, free + k);
  }

  lemma {:induction false} InstallPreorderTail(t: Datum, free: nat, heads: Vector, tails: Vector,
                                               heads2: Vector, tails2: Vector, k: nat, fuel: nat)
    requires t.Pair? && AgreeOn(Install(t, free, heads, tails), free, heads2, tails2)
    requires PairCount(t.hd) < k < PairCount(t) && fuel > Depth(NodeAt(t, k))
    ensures CellDecodes(heads2, tails2, free + k, fuel, NodeAt(t, k))
    decreases t, 1
  {
    var j := k - 1 - PairCount(t.hd);
    var h := Install(t.hd, free + 1, heads, tails);
    assert NodeAt(t, k) == NodeAt(t.tl, j);
    TailOffset(t.hd, free, heads, tails, j, k);
    AgreeOnTail(t, free, heads, tails, heads2, tails2);
    InstallPreorderAt(t.tl, h.next, h.heads[free := Data(h.root)], h.tails, heads2, tails2, j, fuel, free + k);
  }

  /** The tail's cells follow the head's: the tail's `j`-th node sits at
      offset `k` = 1 + (the head's pair count) + `j` from the pair's cell. */
  lemma {:induction false} TailOffset(hd: Datum, free: nat, heads: Vector, tails: Vector, j: nat, k: nat)
    requires k == 1 + PairCount(hd) + j
    ensures Install(hd, free + 1, heads, tails).next + j == free + k
  {
  }

  /** `InstallPreorder` with the cell index `at` = `n` + `j` named by the caller. */
  lemma {:induction false} InstallPreorderAt(u: Datum, n: nat, hs: Vector, ts: Vector,
                                             heads2: Vector, tails2: Vector, j: nat, fuel: nat, at: int)
    requires AgreeOn(Install(u, n, hs, ts), n, heads2, tails2)
    requires j < PairCount(u) && fuel > Depth(NodeAt(u, j)) && at == n + j
    ensures CellDecodes(heads2, tails2, at, fuel, NodeAt(u, j))
    decreases u, 3
  {
    InstallPreorder(u, n, hs, ts, heads2, tails2, j, fuel);
  }

  /** The root of an installation is a typed value, and a `ptr` pointer
      exactly when the tree is a pair. */
  lemma {:induction false} InstallRootKind(t: Datum, free: nat, heads: Vector, tails: Vector)
    ensures var root := Install(t, free, heads, tails).root;
      && TP.IsPtr(root) && (TP.IsPtrPtr(root) <==> t.Pair?)
  {
    TP.WrapUnwrap(t);
  }

  /** A stored value that is typed and, when it is a `ptr` pointer, names a
      cell after `i` and before `next`. */
  predicate ChildFollows(v: Value, i: int, next: int)
  {
    v.Data? && TP.IsPtr(v.d) && (TP.IsPtrPtr(v.d) ==> v.d.tl.Num? && i < v.d.tl.n < next)
  }

  /** Every stored value is a typed value, and a stored `ptr` pointer always
      names a later cell of the same installation: children follow their
      parent. */
  lemma {:induction false} InstallChildrenFollow(t: Datum, free: nat, heads: Vector, tails: Vector, i: int)
    requires free <= i < Install(t, free, heads, tails).next
    ensures var r := Install(t, free, heads, tails);
      && i in r.heads && i in r.tails
      && ChildFollows(r.heads[i], i, r.next) && ChildFollows(r.tails[i], i, r.next)
    decreases t, 1
  {
    var h := Install(t.hd, free + 1, heads, tails);
    if i == free {
      InstallOwnCellFollows(t, free, heads, tails);
    } else if i < h.next {
      HeadCellsFollow(t, free, heads, tails, i);
    } else {
      TailCellsFollow(t, free, heads, tails, i);
    }
  }

  lemma {:induction false} HeadCellsFollow(t: Datum, free: nat, heads: Vector, tails: Vector, i: int)
    requires t.Pair? && free < i < Install(t.hd, free + 1, heads, tails).next
    ensures var r := Install(t, free, heads, tails);
      && i in r.heads && i in r.tails
      && ChildFollows(r.heads[i], i, r.next) && ChildFollows(r.tails[i], i, r.next)
    decreases t, 0
  {
    var r := Install(t, free, heads, tails);
    var h := Install(t.hd, free + 1, heads, tails);
    HeadCellsKept(t, free, heads, tails, i);
    InstallChildrenFollow(t.hd, free + 1, heads, tails, i);
    ChildFollowsWider(h.heads[i], i, h.next, r.next);
    ChildFollowsWider(h.tails[i], i, h.next, r.next);
  }

  lemma {:induction false} TailCellsFollow(t: Datum, free: nat, heads: Vector, tails: Vector, i: int)
    requires t.Pair? && Install(t.hd, free + 1, heads, tails).next <= i < Install(t, free, heads, tails).next
    ensures var r := Install(t, free, heads, tails);
      && i in r.heads && i in r.tails
      && ChildFollows(r.heads[i], i, r.next) && ChildFollows(r.tails[i], i, r.next)
    decreases t, 0
  {
    var h := Install(t.hd, free + 1, heads, tails);
    var heads1 := h.heads[free := Data(h.root)];
    TailCellsKept(t, free, heads, tails, i);
    InstallChildrenFollow(t.tl, h.next, heads1, h.tails, i);
  }

  /** A pair's own cell holds its children's roots, which come after it. */
  lemma {:induction false} InstallOwnCellFollows(t: Datum, free: nat, heads: Vector, tails: Vector)
    requires t.Pair?
    ensures var r := Install(t, free, heads, tails);
      && free in r.heads && free in r.tails
      && ChildFollows(r.heads[free], free, r.next) && ChildFollows(r.tails[free], free, r.next)
  {
    var h := Install(t.hd, free + 1, heads, tails);
    var heads1 := h.heads[free := Data(h.root)];
    PairCellKept(t, free, heads, tails);
    InstallRootKind(t.hd, free + 1, heads, tails);
    InstallRootKind(t.tl, h.next, heads1, h.tails);
  }

  lemma {:induction false} ChildFollowsWider(v: Value, i: int, next: int, next': int)
    requires ChildFollows(v, i, next) && next <= next'
    ensures ChildFollows(v, i, next')
  {
  }

  /** The root of an installation decodes back to the tree. */
  lemma {:induction false} InstallRoundTrip(t: Datum, free: nat, heads: Vector, tails: Vector)
    ensures var r := Install(t, free, heads, tails);
      Rebuild(r.heads, r.tails, r.root, Depth(t) + 1) == Some(t)
  {
    var r := Install(t, free, heads, tails);
    InstallAgreesWithResult(t, free, heads, tails);
    InstallRebuilds(t, free, heads, tails, r.heads, r.tails, Depth(t) + 1);
  }

  /** An installation agrees with its own result vectors. */
  lemma {:induction false} InstallAgreesWithResult(t: Datum, free: nat, heads: Vector, tails: Vector)
    ensures var r := Install(t, free, heads, tails);
      AgreeOn(r, free, r.heads, r.tails)
  {
    var r := Install(t, free, heads, tails);
    forall i | free <= i < r.next
      ensures i in r.heads && i in r.tails
    {
      InstallCovers(t, free, heads, tails, i);
    }
  }

  /** `install_parsetree` from index 0 writes exactly the cells `0` to
      `PairCount(t) - 1`, one per pair node. */
  lemma {:induction false} InstallParsetreeCells(t: Datum)
    ensures var r := InstallParsetree(t);
      forall i :: i in r.heads || i in r.tails <==> 0 <= i < r.next
  {
    var r := InstallParsetree(t);
    forall i
      ensures i in r.heads || i in r.tails <==> 0 <= i < r.next
    {
      if 0 <= i < r.next {
        InstallCovers(t, 0, map[], map[], i);
      } else {
        InstallFrame(t, 0, map[], map[], i);
      }
    }
  }

  /** The root pointer `install_parsetree` returns decodes back to the tree. */
  lemma {:induction false} InstallParsetreeRoundTrip(t: Datum)
    ensures var r := InstallParsetree(t);
      Rebuild(r.heads, r.tails, r.root, Depth(t) + 1) == Some(t)
  {
    InstallRoundTrip(t, 0, map[], map[]);
  }
}
