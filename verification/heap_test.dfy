/**
  The manual heap exercise of test_cases_5_3.js, replayed on the raw
  draft's vector operations: two cells are allocated by hand at `free` and
  `free + 1`, the first cell's tail is pointed at the second, and the
  chain is read back.  The four `display` calls become the returned list of
  displayed values.
 */
module HeapTest {
  import opened HostData
  import opened Errors
  import opened Values
  import opened HostOps

  /** The instructions of the exercise in order, from the contents of
      `free`; the result is the displayed values, the final memory and the
      final contents of `free`, advanced once per allocated cell. */
  function Replay(mem: Memory, free: Datum): Result<(seq<Value>, Memory, Datum)>
  {
    var m1 :- VectorSet(Raw, mem, Vec(TheHeads), Data(free), Data(Num(1)));
    var m2 :- VectorSet(Raw, m1, Vec(TheTails), Data(free), Data(Num(2)));
    var a := Data(free);
    var free1 :- ApplyHost(IncPtr, [free]);
    var m3 :- VectorSet(Raw, m2, Vec(TheHeads), Data(free1), Data(Num(5)));
    var m4 :- VectorSet(Raw, m3, Vec(TheTails), Data(free1), a);
    var b := Data(free1);
    var free2 :- ApplyHost(IncPtr, [free1]);
    var m5 :- VectorSet(Raw, m4, Vec(TheTails), a, b);
    var t :- VectorRef(Raw, m5, Vec(TheTails), a);
    var a2 :- VectorRef(Raw, m5, Vec(TheHeads), t);
    Ok(([a, b, t, a2], m5, free2))
  }

  /** From a raw address `n` the exercise displays `n`, `n + 1`, `n + 1` and
      5: the first cell's tail holds the second cell's address and the second
      cell's head holds 5, while the first cell's head keeps 1. `free` ends
      at `n + 2`, past the two cells. */
  lemma {:induction false} ReplayLinksCells(mem: Memory, n: int)
    ensures Replay(mem, Num(n)).Ok?
    ensures var r := Replay(mem, Num(n)).value;
      && r.0 == [Data(Num(n)), Data(Num(n + 1)), Data(Num(n + 1)), Data(Num(5))]
      && VectorRef(Raw, r.1, Vec(TheTails), Data(Num(n))) == Ok(Data(Num(n + 1)))
      && VectorRef(Raw, r.1, Vec(TheHeads), Data(Num(n + 1))) == Ok(Data(Num(5)))
      && VectorRef(Raw, r.1, Vec(TheHeads), Data(Num(n))) == Ok(Data(Num(1)))
      && VectorRef(Raw, r.1, Vec(TheTails), Data(Num(n + 1))) == Ok(Data(Num(n)))
      && r.2 == Num(n + 2)
  {
    var a, b := Data(Num(n)), Data(Num(n + 1));
    PointerAndAddressSameSlot(n);
    PointerAndAddressSameSlot(n + 1);
    var m1 := VectorSet(Raw, mem, Vec(TheHeads), a, Data(Num(1))).value;
    var m2 := VectorSet(Raw, m1, Vec(TheTails), a, Data(Num(2))).value;
    var m3 := VectorSet(Raw, m2, Vec(TheHeads), b, Data(Num(5))).value;
    var m4 := VectorSet(Raw, m3, Vec(TheTails), b, a).value;
    var m5 := VectorSet(Raw, m4, Vec(TheTails), a, b).value;
    assert Cells(m5, TheTails) == Cells(mem, TheTails)[n := Data(Num(2))][n + 1 := a][n := b];
    assert Cells(m5, TheHeads) == Cells(mem, TheHeads)[n := Data(Num(1))][n + 1 := Data(Num(5))];
  }

  /** The exercise as the test runs it, from `start`'s raw `free` of 0. */
  lemma {:induction false} ReplayFromStart(mem: Memory)
    ensures Replay(mem, Num(0)).Ok?
    ensures Replay(mem, Num(0)).value.0 == [Data(Num(0)), Data(Num(1)), Data(Num(1)), Data(Num(5))]
  {
    ReplayLinksCells(mem, 0);
  }
}
