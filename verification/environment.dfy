/**
  The environment routines `lookup_name_value` and `assign_name_value`
  (4.1_to_register.js:220-269), modelled by what their comments and labels
  describe, as pure functions over `the_heads` and `the_tails`.

  Heap layout, as the routines' comments name the cells:
  - an environment is a list of frames: the head of a spine cell is a
    frame, its tail the rest of the environment; the empty environment is
    the null pointer;
  - the head of a frame cell is the list of names, its tail the list of
    values, walked in step;
  - a name-list cell holds a wrapped name; a value-list cell holds a pointer
    to a value cell, whose head is the value and whose tail is the wrapped
    mutability flag (`false` marks a constant).

  The walk reads the rest of the environment from the spine cell's tail
  (the routines' own comment "rest frames"), writes the value cell that
  `anv_set_value` located, and reports an unbound name when the
  environment runs out; a fuel bound stops a walk around a cyclic heap.
 */
module Environment {
  import opened HostData
  import opened Errors
  import opened Values
  import TP = TypedPointers
  import opened Evaluator

  function Ptr(i: int): Datum
  {
    TP.MakePtrPtr(i)
  }

  function Nil(): Datum
  {
    TP.MakeNullPtr()
  }

  // ---- the walk ----

  /** The ways a walk can fail: the name is unbound, the fuel ran out, or a
      cell on the way is not a well-formed pointer or holds a non-datum. */
  predicate WalkError(e: Error, a: Datum)
  {
    e == UnboundName(a) || e == OutOfFuel || e == BadIndex || e == BadOperand || e.NotAPair?
  }

  /** The environment loop from `lookup_name_value`/`assign_name_value`:
      take the first frame of `b` and scan it; the result is the pointer to
      the value cell of the name in `a`. */
  function EnvLoop(heads: Vector, tails: Vector, a: Datum, b: Datum, fuel: nat): Result<Datum>
    decreases fuel, 1, 0
  {
    if fuel == 0 then Err(OutOfFuel)
    else if TP.IsNullPtr(b) then Err(UnboundName(a))
    else
      var frame :- Ref(heads, b);
      var values :- Ref(tails, frame);
      var names :- Ref(heads, frame);
      ScanLoop(heads, tails, a, b, names, values, fuel - 1)
  }

  /** The scan loop (`lnv_scan_loop`): names `c` and values `d` in step; at
      the end of the names the walk moves on to the rest frames of `b`. */
  function ScanLoop(heads: Vector, tails: Vector, a: Datum, b: Datum, c: Datum, d: Datum, fuel: nat): Result<Datum>
    decreases fuel, 0, 1
  {
    if fuel == 0 then Err(OutOfFuel)
    else if TP.IsNullPtr(c) then
      var rest :- Ref(tails, b);
      EnvLoop(heads, tails, a, rest, fuel - 1)
    else ScanCompare(heads, tails, a, b, c, d, fuel)
  }

  /** The body of the scan past the end test: compare the first name with
      `a`; on a match the value cell is found, otherwise both lists advance. */
  function ScanCompare(heads: Vector, tails: Vector, a: Datum, b: Datum, c: Datum, d: Datum, fuel: nat): Result<Datum>
    requires fuel > 0
    decreases fuel, 0, 0
  {
    var e :- Ref(heads, c);
    var same :- StrictEquals(a, e);
    if same then Ref(heads, d)
    else
      var d' :- Ref(tails, d);
      var c' :- Ref(tails, c);
      ScanLoop(heads, tails, a, b, c', d', fuel - 1)
  }

  /** The walk fails only as unbound (naming the name it looked for), out of
      fuel, or on a malformed cell; in particular it never reports a
      constant. */
  lemma {:induction false} EnvLoopFailures(heads: Vector, tails: Vector, a: Datum, b: Datum, fuel: nat)
    ensures EnvLoop(heads, tails, a, b, fuel).Err? ==> WalkError(EnvLoop(heads, tails, a, b, fuel).error, a)
    decreases fuel, 1, 0
  {
    if fuel > 0 && !TP.IsNullPtr(b) {
      var frame := Ref(heads, b);
      if frame.Ok? {
        var values, names := Ref(tails, frame.value), Ref(heads, frame.value);
        if values.Ok? && names.Ok? {
          ScanLoopFailures(heads, tails, a, b, names.value, values.value, fuel - 1);
        }
      }
    }
  }

  lemma {:induction false} ScanLoopFailures(heads: Vector, tails: Vector, a: Datum, b: Datum, c: Datum, d: Datum, fuel: nat)
    ensures ScanLoop(heads, tails, a, b, c, d, fuel).Err? ==> WalkError(ScanLoop(heads, tails, a, b, c, d, fuel).error, a)
    decreases fuel, 0, 1
  {
    if fuel > 0 {
      if TP.IsNullPtr(c) {
        var rest := Ref(tails, b);
        if rest.Ok? {
          EnvLoopFailures(heads, tails, a, rest.value, fuel - 1);
        }
      } else {
        ScanCompareFailures(heads, tails, a, b, c, d, fuel);
      }
    }
  }

  lemma {:induction false} ScanCompareFailures(heads: Vector, tails: Vector, a: Datum, b: Datum, c: Datum, d: Datum, fuel: nat)
    requires fuel > 0
    ensures ScanCompare(heads, tails, a, b, c, d, fuel).Err? ==> WalkError(ScanCompare(heads, tails, a, b, c, d, fuel).error, a)
    decreases fuel, 0, 0
  {
    var e := Ref(heads, c);
    if e.Ok? && StrictEquals(a, e.value) == Ok(false) {
      var d', c' := Ref(tails, d), Ref(tails, c);
      if d'.Ok? && c'.Ok? {
        ScanLoopFailures(heads, tails, a, b, c'.value, d'.value, fuel - 1);
      }
    }
  }

  /** `lookup_name_value`: the head of the located value cell. */
  function LookupNameValue(heads: Vector, tails: Vector, a: Datum, env: Datum, fuel: nat): (r: Result<Datum>)
    ensures r.Err? ==> WalkError(r.error, a)
    ensures fuel > 0 && TP.IsNullPtr(env) ==> r == Err(UnboundName(a))
  {
    EnvLoopFailures(heads, tails, a, env, fuel);
    var cell :- EnvLoop(heads, tails, a, env, fuel);
    Ref(heads, cell)
  }

  /** `assign_name_value`: refuse a constant, otherwise store `val` (the
      contents of `res`) in the head of the located value cell. */
  function AssignNameValue(heads: Vector, tails: Vector, a: Datum, val: Datum, env: Datum, fuel: nat): (r: Result<Vector>)
    ensures r.Err? ==> WalkError(r.error, a) || r.error == AssignToConstant(a)
    ensures fuel > 0 && TP.IsNullPtr(env) ==> r == Err(UnboundName(a))
    ensures r.Ok? ==> exists n :: n in r.value && r.value == heads[n := Data(val)]
  {
    EnvLoopFailures(heads, tails, a, env, fuel);
    var cell :- EnvLoop(heads, tails, a, env, fuel);
    var n :- IndexOf(Typed, Data(cell));
    var flag :- Ref(tails, cell);
    var isConstant :- StrictEquals(flag, Wrap(Bool(false)));
    if isConstant then Err(AssignToConstant(a))
    else
      var written := heads[n := Data(val)];
      assert n in written;
      Ok(written)
  }

  // ---- the reference environment ----

  datatype Binding = Binding(name: Datum, value: Datum, assignable: bool)

  type Frame = seq<Binding>

  /** The first binding of `name` in a frame. */
  function FrameIndex(frame: Frame, name: Datum): (r: Option<nat>)
    ensures r.Some? ==> r.value < |frame| && frame[r.value].name == name
    ensures r.Some? ==> forall j :: 0 <= j < r.value ==> frame[j].name != name
    ensures r.None? ==> forall j :: 0 <= j < |frame| ==> frame[j].name != name
  {
    if |frame| == 0 then None
    else if frame[0].name == name then Some(0)
    else match FrameIndex(frame[1..], name)
      case Some(j) => Some(j + 1)
      case None => None
  }

  /** A match past the first binding is a match in the rest of the frame. */
  lemma {:induction false} FrameIndexLater(frame: Frame, name: Datum, j: nat)
    requires FrameIndex(frame, name) == Some(j) && j > 0
    ensures frame[0].name != name && FrameIndex(frame[1..], name) == Some(j - 1)
  {
  }

  /** A frame without the name has none in its rest either. */
  lemma {:induction false} FrameIndexPast(frame: Frame, name: Datum)
    requires FrameIndex(frame, name).None? && |frame| > 0
    ensures frame[0].name != name && FrameIndex(frame[1..], name).None?
  {
  }

  /** The binding a lookup finds: the innermost frame that binds `name`,
      and in it the first binding. */
  function Find(env: seq<Frame>, name: Datum): (r: Option<(nat, nat)>)
    ensures r.Some? ==> r.value.0 < |env| && FrameIndex(env[r.value.0], name) == Some(r.value.1)
    ensures r.Some? ==> forall i :: 0 <= i < r.value.0 ==> FrameIndex(env[i], name).None?
    ensures r.None? ==> forall i :: 0 <= i < |env| ==> FrameIndex(env[i], name).None?
  {
    if |env| == 0 then None
    else match FrameIndex(env[0], name)
      case Some(j) => Some((0, j))
      case None =>
        match Find(env[1..], name)
        case Some(p) => Some((p.0 + 1, p.1))
        case None => None
  }

  function LookupRef(env: seq<Frame>, name: Datum): (r: Result<Datum>)
    requires !name.Pair?
    ensures r.Err? <==> Find(env, name).None?
    ensures r.Err? ==> r.error == UnboundName(Wrap(name))
  {
    match Find(env, name)
    case Some((i, j)) => Ok(env[i][j].value)
    case None => Err(UnboundName(Wrap(name)))
  }

  function AssignRef(env: seq<Frame>, name: Datum, v: Datum): (r: Result<seq<Frame>>)
    requires !name.Pair?
    ensures Find(env, name).None? ==> r == Err(UnboundName(Wrap(name)))
    ensures r.Ok? ==> |r.value| == |env|
  {
    match Find(env, name)
    case Some((i, j)) =>
      if !env[i][j].assignable then Err(AssignToConstant(Wrap(name)))
      else Ok(env[i := env[i][j := env[i][j].(value := v)]])
    case None => Err(UnboundName(Wrap(name)))
  }

  /** Looking a name up after assigning it gives the assigned value. */
  lemma {:induction false} AssignThenLookupRef(env: seq<Frame>, name: Datum, v: Datum)
    requires !name.Pair? && AssignRef(env, name, v).Ok?
    ensures LookupRef(AssignRef(env, name, v).value, name) == Ok(v)
  {
    var (i, j) := Find(env, name).value;
    var env' := AssignRef(env, name, v).value;
    FindAfterUpdate(env, name, i, j, v);
  }

  /** Changing a binding's value leaves every name where it was. */
  lemma {:induction false} FindAfterUpdate(env: seq<Frame>, name: Datum, i: nat, j: nat, v: Datum)
    requires i < |env| && j < |env[i]|
    ensures Find(env[i := env[i][j := env[i][j].(value := v)]], name) == Find(env, name)
  {
    var env' := env[i := env[i][j := env[i][j].(value := v)]];
    forall k | 0 <= k < |env|
      ensures FrameIndex(env'[k], name) == FrameIndex(env[k], name)
    {
      FrameIndexNamesOnly(env'[k], env[k], name);
    }
    FindNamesOnly(env', env, name);
  }

  lemma {:induction false} FrameIndexNamesOnly(f: Frame, g: Frame, name: Datum)
    requires |f| == |g| && forall j :: 0 <= j < |f| ==> f[j].name == g[j].name
    ensures FrameIndex(f, name) == FrameIndex(g, name)
    decreases |f|
  {
    if |f| > 0 {
      FrameIndexNamesOnly(f[1..], g[1..], name);
    }
  }

  lemma {:induction false} FindNamesOnly(e: seq<Frame>, e': seq<Frame>, name: Datum)
    requires |e| == |e'| && forall k :: 0 <= k < |e| ==> FrameIndex(e[k], name) == FrameIndex(e'[k], name)
    ensures Find(e, name) == Find(e', name)
    decreases |e|
  {
    if |e| > 0 {
      FindNamesOnly(e[1..], e'[1..], name);
    }
  }

  // ---- the heap layout ----

  /** The cells of one binding: the name-list cell, the value-list cell and
      the value cell. */
  datatype BindingCells = BindingCells(name: int, link: int, cell: int)

  /** The cells of one frame: the spine cell, the frame cell and its
      bindings' cells. */
  datatype FrameCells = FrameCells(spine: int, frame: int, bindings: seq<BindingCells>)

  predicate CellHolds(v: Vector, i: int, x: Datum)
  {
    i in v && v[i] == Data(x)
  }

  /** Name-list cell `c` and value-list cell `d` hold binding `x` in the
      cells `k`. */
  predicate BindingCellsHold(heads: Vector, tails: Vector, c: Datum, d: Datum, x: Binding, k: BindingCells)
  {
    && c == Ptr(k.name) && d == Ptr(k.link)
    && !x.name.Pair?
    && CellHolds(heads, k.name, Wrap(x.name))
    && CellHolds(heads, k.link, Ptr(k.cell))
    && CellHolds(heads, k.cell, x.value)
    && CellHolds(tails, k.cell, Wrap(Bool(x.assignable)))
    && k.name in tails && tails[k.name].Data?
    && k.link in tails && tails[k.link].Data?
  }

  /** The name list `c` and the value list `d` hold `frame` in `cells`. */
  predicate BindingsAt(heads: Vector, tails: Vector, c: Datum, d: Datum, frame: Frame, cells: seq<BindingCells>)
    decreases |frame|
  {
    && |cells| == |frame|
    && if |frame| == 0 then c == Nil()
       else
         && BindingCellsHold(heads, tails, c, d, frame[0], cells[0])
         && BindingsAt(heads, tails, tails[cells[0].name].d, tails[cells[0].link].d, frame[1..], cells[1..])
  }

  /** Environment pointer `p` names spine cell `k.spine`, whose head points
      at frame cell `k.frame`. */
  predicate FrameCellsHold(heads: Vector, tails: Vector, p: Datum, k: FrameCells)
  {
    && p == Ptr(k.spine)
    && CellHolds(heads, k.spine, Ptr(k.frame))
    && k.spine in tails && tails[k.spine].Data?
    && k.frame in heads && heads[k.frame].Data?
    && k.frame in tails && tails[k.frame].Data?
  }

  /** The environment pointer `p` holds `env` in `cells`. */
  predicate EnvAt(heads: Vector, tails: Vector, p: Datum, env: seq<Frame>, cells: seq<FrameCells>)
    decreases |env|
  {
    && |cells| == |env|
    && if |env| == 0 then p == Nil()
       else
         var k := cells[0];
         && FrameCellsHold(heads, tails, p, k)
         && BindingsAt(heads, tails, heads[k.frame].d, tails[k.frame].d, env[0], k.bindings)
         && EnvAt(heads, tails, tails[k.spine].d, env[1..], cells[1..])
  }

  /** Steps a walk of `env` needs: one per frame entered, one per binding
      passed, one per frame left, and one to notice the end. */
  function EnvCost(env: seq<Frame>): nat
  {
    if |env| == 0 then 1 else |env[0]| + 2 + EnvCost(env[1..])
  }

  lemma {:induction false} PointersAreNotNull(i: int)
    ensures !TP.IsNullPtr(Ptr(i)) && TP.IsNullPtr(Nil())
    ensures Ptr(i).Pair? && Ptr(i).tl == Num(i)
  {
    assert TP.Decode(Ptr(i)) == Some(TP.TypedPtr(TP.PtrTag, Num(i)));
    assert TP.Decode(Nil()) == Some(TP.TypedPtr(TP.NullTag, Null));
    TP.HasTagExactlyDecodedTag(Ptr(i), TP.NullTag);
    TP.HasTagExactlyDecodedTag(Nil(), TP.NullTag);
  }

  /** The scans from names `c`, values `d` and from `c2`, `d2` answer alike. */
  predicate SameScan(heads: Vector, tails: Vector, a: Datum, b: Datum, c: Datum, d: Datum, fuel: nat,
                     c2: Datum, d2: Datum, fuel2: nat)
  {
    ScanLoop(heads, tails, a, b, c, d, fuel) == ScanLoop(heads, tails, a, b, c2, d2, fuel2)
  }

  /** The scan from names `c`, values `d` answers what the walk of the
      rest frames `rest` answers. */
  predicate ScanLeaves(heads: Vector, tails: Vector, a: Datum, b: Datum, c: Datum, d: Datum, fuel: nat,
                       rest: Datum, more: nat)
  {
    ScanLoop(heads, tails, a, b, c, d, fuel) == EnvLoop(heads, tails, a, rest, more)
  }

  /** One step of the scan over a non-empty frame: the first binding either
      matches, and the scan ends at its value cell, or the scan moves on to
      the next name and value cells. */
  lemma {:induction false} ScanStep(heads: Vector, tails: Vector, name: Datum, b: Datum,
                 c: Datum, d: Datum, x: Binding, k: BindingCells, fuel: nat)
    requires !name.Pair? && BindingCellsHold(heads, tails, c, d, x, k) && fuel > 0
    ensures x.name == name ==>
      ScanLoop(heads, tails, Wrap(name), b, c, d, fuel) == Ok(Ptr(k.cell))
    ensures x.name != name ==>
      SameScan(heads, tails, Wrap(name), b, c, d, fuel, tails[k.name].d, tails[k.link].d, fuel - 1)
  {
    PointersAreNotNull(k.name);
    PointersAreNotNull(k.link);
    PointersAreNotNull(k.cell);
    StrictEqualsWrapped(name, x.name, 0, "");
    assert Ref(heads, c) == Ok(Wrap(x.name));
  }

  /** At the end of the names the scan moves on to the rest frames. */
  lemma {:induction false} ScanEnd(heads: Vector, tails: Vector, name: Datum, b: Datum, rest: Datum, c: Datum, d: Datum, fuel: nat)
    requires !name.Pair? && c == Nil() && Ref(tails, b) == Ok(rest) && fuel > 0
    ensures ScanLeaves(heads, tails, Wrap(name), b, c, d, fuel, rest, fuel - 1)
  {
    PointersAreNotNull(0);
  }

  /** A non-empty frame's first binding is held at its cells, and the rest
      of the frame at the cells its name and link cells point to. */
  lemma {:induction false} BindingsAtRest(heads: Vector, tails: Vector, c: Datum, d: Datum,
                                          frame: Frame, cells: seq<BindingCells>)
    requires BindingsAt(heads, tails, c, d, frame, cells) && |frame| > 0
    ensures |cells| == |frame| && BindingCellsHold(heads, tails, c, d, frame[0], cells[0])
    ensures BindingsAt(heads, tails, tails[cells[0].name].d, tails[cells[0].link].d, frame[1..], cells[1..])
  {
  }

  /** The scan of a frame that binds the name ends at the value cell of its
      first binding. */
  lemma {:induction false} ScanFindsBound(heads: Vector, tails: Vector, name: Datum, b: Datum,
                                          c: Datum, d: Datum, frame: Frame, cells: seq<BindingCells>, fuel: nat, j: nat)
    requires !name.Pair? && BindingsAt(heads, tails, c, d, frame, cells)
    requires FrameIndex(frame, name) == Some(j) && fuel > |frame|
    ensures j < |cells| && ScanLoop(heads, tails, Wrap(name), b, c, d, fuel) == Ok(Ptr(cells[j].cell))
    decreases |frame|, 2
  {
    if j == 0 {
      ScanStep(heads, tails, name, b, c, d, frame[0], cells[0], fuel);
    } else {
      ScanFindsLater(heads, tails, name, b, c, d, frame, cells, fuel, j);
    }
  }

  lemma {:induction false} ScanFindsLater(heads: Vector, tails: Vector, name: Datum, b: Datum,
                                          c: Datum, d: Datum, frame: Frame, cells: seq<BindingCells>, fuel: nat, j: nat)
    requires !name.Pair? && BindingsAt(heads, tails, c, d, frame, cells)
    requires FrameIndex(frame, name) == Some(j) && j > 0 && fuel > |frame|
    ensures j < |cells| && ScanLoop(heads, tails, Wrap(name), b, c, d, fuel) == Ok(Ptr(cells[j].cell))
    decreases |frame|, 1
  {
    var k := cells[0];
    FrameIndexLater(frame, name, j);
    BindingsAtRest(heads, tails, c, d, frame, cells);
    ScanStep(heads, tails, name, b, c, d, frame[0], k, fuel);
    ScanFindsNext(heads, tails, name, b, c, d, tails[k.name].d, tails[k.link].d, frame, cells, fuel, j,
                  fuel - 1, frame[1..], cells[1..]);
  }

  lemma {:induction false} ScanFindsNext(heads: Vector, tails: Vector, name: Datum, b: Datum, c: Datum, d: Datum,
                                         c2: Datum, d2: Datum, frame: Frame, cells: seq<BindingCells>, fuel: nat, j: nat,
                                         fuel': nat, frame': Frame, cells': seq<BindingCells>)
    requires !name.Pair? && |frame| > 0 && |cells| == |frame| && 0 < j && fuel > |frame|
    requires fuel' == fuel - 1 && frame' == frame[1..] && cells' == cells[1..]
    requires SameScan(heads, tails, Wrap(name), b, c, d, fuel, c2, d2, fuel')
    requires BindingsAt(heads, tails, c2, d2, frame', cells') && FrameIndex(frame', name) == Some(j - 1)
    ensures j < |cells| && ScanLoop(heads, tails, Wrap(name), b, c, d, fuel) == Ok(Ptr(cells[j].cell))
    decreases |frame|, 0
  {
    assert cells'[j - 1] == cells[j];
    ScanFindsBound(heads, tails, name, b, c2, d2, frame', cells', fuel', j - 1);
  }

  /** The scan of a frame that does not bind the name moves on to the rest
      of the environment after one step per binding and one at the end. */
  lemma {:induction false} ScanPasses(heads: Vector, tails: Vector, name: Datum, b: Datum, rest: Datum,
                                      c: Datum, d: Datum, frame: Frame, cells: seq<BindingCells>, fuel: nat)
    requires !name.Pair? && BindingsAt(heads, tails, c, d, frame, cells)
    requires FrameIndex(frame, name).None? && Ref(tails, b) == Ok(rest) && fuel > |frame|
    ensures ScanLeaves(heads, tails, Wrap(name), b, c, d, fuel, rest, fuel - |frame| - 1)
    decreases |frame|, 2
  {
    if |frame| == 0 {
      ScanEnd(heads, tails, name, b, rest, c, d, fuel);
    } else {
      ScanPassesLater(heads, tails, name, b, rest, c, d, frame, cells, fuel);
    }
  }

  lemma {:induction false} ScanPassesLater(heads: Vector, tails: Vector, name: Datum, b: Datum, rest: Datum,
                                           c: Datum, d: Datum, frame: Frame, cells: seq<BindingCells>, fuel: nat)
    requires !name.Pair? && BindingsAt(heads, tails, c, d, frame, cells)
    requires FrameIndex(frame, name).None? && Ref(tails, b) == Ok(rest) && fuel > |frame| > 0
    ensures ScanLeaves(heads, tails, Wrap(name), b, c, d, fuel, rest, fuel - |frame| - 1)
    decreases |frame|, 1
  {
    var k := cells[0];
    FrameIndexPast(frame, name);
    BindingsAtRest(heads, tails, c, d, frame, cells);
    ScanStep(heads, tails, name, b, c, d, frame[0], k, fuel);
    ScanPassesNext(heads, tails, name, b, rest, c, d, tails[k.name].d, tails[k.link].d, frame, cells, fuel,
                   fuel - 1, fuel - |frame| - 1);
  }

  lemma {:induction false} ScanPassesNext(heads: Vector, tails: Vector, name: Datum, b: Datum, rest: Datum, c: Datum, d: Datum,
                                          c2: Datum, d2: Datum, frame: Frame, cells: seq<BindingCells>, fuel: nat,
                                          fuel': nat, more: nat)
    requires !name.Pair? && |frame| > 0 && |cells| == |frame| && fuel > |frame| && Ref(tails, b) == Ok(rest)
    requires fuel' == fuel - 1 && more == fuel - |frame| - 1
    requires SameScan(heads, tails, Wrap(name), b, c, d, fuel, c2, d2, fuel')
    requires BindingsAt(heads, tails, c2, d2, frame[1..], cells[1..]) && FrameIndex(frame[1..], name).None?
    ensures ScanLeaves(heads, tails, Wrap(name), b, c, d, fuel, rest, more)
    decreases |frame|, 0
  {
    ScanPassesAt(heads, tails, name, b, rest, c2, d2, frame[1..], cells[1..], fuel', more);
  }

  /** `ScanPasses` with the remaining fuel `more` named by the caller. */
  lemma {:induction false} ScanPassesAt(heads: Vector, tails: Vector, name: Datum, b: Datum, rest: Datum,
                                        c: Datum, d: Datum, frame: Frame, cells: seq<BindingCells>, fuel: nat, more: nat)
    requires !name.Pair? && BindingsAt(heads, tails, c, d, frame, cells)
    requires FrameIndex(frame, name).None? && Ref(tails, b) == Ok(rest) && fuel > |frame| && more == fuel - |frame| - 1
    ensures ScanLeaves(heads, tails, Wrap(name), b, c, d, fuel, rest, more)
    decreases |frame|, 3
  {
    ScanPasses(heads, tails, name, b, rest, c, d, frame, cells, fuel);
  }

  /** Entering a frame: the walk reads the frame cell through the spine
      cell and scans its names and values. */
  lemma {:induction false} EnvStep(heads: Vector, tails: Vector, a: Datum, p: Datum, k: FrameCells, fuel: nat)
    requires FrameCellsHold(heads, tails, p, k) && fuel > 0
    ensures EnvLoop(heads, tails, a, p, fuel) == ScanLoop(heads, tails, a, p, heads[k.frame].d, tails[k.frame].d, fuel - 1)
    ensures Ref(tails, p) == Ok(tails[k.spine].d)
  {
    PointersAreNotNull(k.spine);
    PointersAreNotNull(k.frame);
  }

  /** The empty environment binds nothing. */
  lemma {:induction false} EnvEnd(heads: Vector, tails: Vector, a: Datum, fuel: nat)
    requires fuel > 0
    ensures EnvLoop(heads, tails, a, Nil(), fuel) == Err(UnboundName(a))
  {
    PointersAreNotNull(0);
  }

  /** The walks from `p` and from `q` answer alike. */
  predicate SameWalk(heads: Vector, tails: Vector, a: Datum, p: Datum, fuel: nat, q: Datum, more: nat)
  {
    EnvLoop(heads, tails, a, p, fuel) == EnvLoop(heads, tails, a, q, more)
  }

  /** Passing a frame that does not bind the name: the walk goes on to
      the rest frames after one step per binding and two more. */
  lemma {:induction false} EnvSkip(heads: Vector, tails: Vector, name: Datum, p: Datum, frame: Frame, k: FrameCells,
                                   fuel: nat, more: nat)
    requires !name.Pair? && FrameCellsHold(heads, tails, p, k)
    requires BindingsAt(heads, tails, heads[k.frame].d, tails[k.frame].d, frame, k.bindings)
    requires FrameIndex(frame, name).None? && fuel >= |frame| + 2 && more == fuel - |frame| - 2
    ensures SameWalk(heads, tails, Wrap(name), p, fuel, tails[k.spine].d, more)
  {
    EnvStep(heads, tails, Wrap(name), p, k, fuel);
    ScanPassesAt(heads, tails, name, p, tails[k.spine].d, heads[k.frame].d, tails[k.frame].d, frame, k.bindings,
                 fuel - 1, more);
  }

  /** The value cell of the binding a walk of `env`, laid out in `cells`,
      should find: the first binding of the name in the innermost frame
      that binds it. */
  function FoundCell(env: seq<Frame>, cells: seq<FrameCells>, name: Datum): Option<int>
    decreases |env|
  {
    if |env| == 0 || |cells| == 0 then None
    else match FrameIndex(env[0], name)
      case Some(j) => if j < |cells[0].bindings| then Some(cells[0].bindings[j].cell) else None
      case None => FoundCell(env[1..], cells[1..], name)
  }

  /** What a walk of `env` laid out in `cells` answers: the pointer to the
      value cell it should find, or an unbound name. */
  function Expected(env: seq<Frame>, cells: seq<FrameCells>, name: Datum): Result<Datum>
    requires !name.Pair?
  {
    match FoundCell(env, cells, name)
    case Some(cell) => Ok(Ptr(cell))
    case None => Err(UnboundName(Wrap(name)))
  }

  /** The walk over an environment laid out in the heap ends at the value
      cell of the binding the reference lookup picks, and reports an unbound
      name when no frame binds it. */
  lemma {:induction false} EnvFinds(heads: Vector, tails: Vector, name: Datum, p: Datum,
                                    env: seq<Frame>, cells: seq<FrameCells>, fuel: nat)
    requires !name.Pair? && EnvAt(heads, tails, p, env, cells) && fuel >= EnvCost(env)
    ensures EnvLoop(heads, tails, Wrap(name), p, fuel) == Expected(env, cells, name)
    decreases |env|, 2
  {
    if |env| == 0 {
      EnvEnd(heads, tails, Wrap(name), fuel);
    } else if FrameIndex(env[0], name).Some? {
      EnvFindsFirst(heads, tails, name, p, env, cells, fuel);
    } else {
      EnvFindsPast(heads, tails, name, p, env, cells, fuel);
    }
  }

  lemma {:induction false} EnvFindsFirst(heads: Vector, tails: Vector, name: Datum, p: Datum,
                      env: seq<Frame>, cells: seq<FrameCells>, fuel: nat)
    requires !name.Pair? && EnvAt(heads, tails, p, env, cells) && fuel >= EnvCost(env)
    requires |env| > 0 && FrameIndex(env[0], name).Some?
    ensures EnvLoop(heads, tails, Wrap(name), p, fuel) == Expected(env, cells, name)
  {
    var k := cells[0];
    var j := FrameIndex(env[0], name).value;
    FrameFinds(heads, tails, name, p, env[0], k, fuel, j);
  }

  /** Entering a frame that binds the name ends at the value cell of its
      first binding. */
  lemma {:induction false} FrameFinds(heads: Vector, tails: Vector, name: Datum, p: Datum, frame: Frame, k: FrameCells, fuel: nat, j: nat)
    requires !name.Pair? && FrameCellsHold(heads, tails, p, k)
    requires BindingsAt(heads, tails, heads[k.frame].d, tails[k.frame].d, frame, k.bindings)
    requires FrameIndex(frame, name) == Some(j) && fuel >= |frame| + 2
    ensures j < |k.bindings| && EnvLoop(heads, tails, Wrap(name), p, fuel) == Ok(Ptr(k.bindings[j].cell))
  {
    EnvStep(heads, tails, Wrap(name), p, k, fuel);
    ScanFindsBound(heads, tails, name, p, heads[k.frame].d, tails[k.frame].d, frame, k.bindings, fuel - 1, j);
  }

  /** The first frame does not bind the name: the walk passes it. */
  lemma {:induction false} EnvFindsPast(heads: Vector, tails: Vector, name: Datum, p: Datum,
                                        env: seq<Frame>, cells: seq<FrameCells>, fuel: nat)
    requires !name.Pair? && EnvAt(heads, tails, p, env, cells) && fuel >= EnvCost(env)
    requires |env| > 0 && FrameIndex(env[0], name).None?
    ensures EnvLoop(heads, tails, Wrap(name), p, fuel) == Expected(env, cells, name)
    decreases |env|, 1
  {
    var k, more := cells[0], fuel - |env[0]| - 2;
    EnvSkip(heads, tails, name, p, env[0], k, fuel, more);
    EnvFindsLater(heads, tails, name, p, tails[k.spine].d, env, cells, fuel, more);
  }

  lemma {:induction false} EnvFindsLater(heads: Vector, tails: Vector, name: Datum, p: Datum, rest: Datum,
                                         env: seq<Frame>, cells: seq<FrameCells>, fuel: nat, more: nat)
    requires !name.Pair? && |env| > 0 && |cells| == |env| && FrameIndex(env[0], name).None?
    requires SameWalk(heads, tails, Wrap(name), p, fuel, rest, more)
    requires EnvAt(heads, tails, rest, env[1..], cells[1..]) && more >= EnvCost(env[1..])
    ensures EnvLoop(heads, tails, Wrap(name), p, fuel) == Expected(env, cells, name)
    decreases |env|, 0
  {
    EnvFinds(heads, tails, name, rest, env[1..], cells[1..], more);
    ExpectedSkips(env, cells, name);
  }

  /** Past a frame that does not bind the name, the walk should find what
      it finds in the rest frames. */
  lemma {:induction false} ExpectedSkips(env: seq<Frame>, cells: seq<FrameCells>, name: Datum)
    requires !name.Pair? && |env| > 0 && |cells| > 0 && FrameIndex(env[0], name).None?
    ensures Expected(env, cells, name) == Expected(env[1..], cells[1..], name)
  {
    assert FoundCell(env, cells, name) == FoundCell(env[1..], cells[1..], name);
  }

  // ---- lookup and assignment against the reference ----

  /** Every frame has one binding's cells per binding. */
  predicate Shaped(env: seq<Frame>, cells: seq<FrameCells>)
  {
    |cells| == |env| && forall i :: 0 <= i < |env| ==> |cells[i].bindings| == |env[i]|
  }

  /** The value cell of `k` holds the value of `x`, and its tail the
      binding's mutability flag. */
  predicate ValueCellHolds(heads: Vector, tails: Vector, k: BindingCells, x: Binding)
  {
    CellHolds(heads, k.cell, x.value) && CellHolds(tails, k.cell, Wrap(Bool(x.assignable)))
  }

  lemma {:induction false} BindingsAtCells(heads: Vector, tails: Vector, c: Datum, d: Datum,
                                           frame: Frame, cells: seq<BindingCells>, j: nat)
    requires BindingsAt(heads, tails, c, d, frame, cells) && j < |frame|
    ensures ValueCellHolds(heads, tails, cells[j], frame[j])
    decreases |frame|
  {
    if j > 0 {
      BindingsAtCells(heads, tails, tails[cells[0].name].d, tails[cells[0].link].d, frame[1..], cells[1..], j - 1);
      assert cells[1..][j - 1] == cells[j];
    }
  }

  /** The value cell of binding `j` of frame `i` holds the binding's value,
      and its tail the binding's mutability flag. */
  lemma {:induction false} EnvAtCells(heads: Vector, tails: Vector, p: Datum, env: seq<Frame>,
                                      cells: seq<FrameCells>, i: nat, j: nat)
    requires EnvAt(heads, tails, p, env, cells) && i < |env| && j < |env[i]|
    ensures Shaped(env, cells)
    ensures ValueCellHolds(heads, tails, cells[i].bindings[j], env[i][j])
    decreases |env|, 1
  {
    EnvAtShaped(heads, tails, p, env, cells);
    var k := cells[0];
    if i == 0 {
      BindingsAtCells(heads, tails, heads[k.frame].d, tails[k.frame].d, env[0], k.bindings, j);
    } else {
      EnvAtCellsLater(heads, tails, p, env, cells, i, j);
    }
  }

  lemma {:induction false} EnvAtCellsLater(heads: Vector, tails: Vector, p: Datum, env: seq<Frame>,
                                           cells: seq<FrameCells>, i: nat, j: nat)
    requires EnvAt(heads, tails, p, env, cells) && 0 < i < |env| && j < |env[i]|
    ensures i < |cells| && j < |cells[i].bindings|
    ensures ValueCellHolds(heads, tails, cells[i].bindings[j], env[i][j])
    decreases |env|, 0
  {
    var rest, cells' := env[1..], cells[1..];
    EnvAtRest(heads, tails, p, env, cells);
    assert rest[i - 1] == env[i] && cells'[i - 1] == cells[i];
    EnvAtCells(heads, tails, tails[cells[0].spine].d, rest, cells', i - 1, j);
  }

  /** The rest frames of a laid-out environment are laid out from the
      spine cell's tail. */
  lemma {:induction false} EnvAtRest(heads: Vector, tails: Vector, p: Datum, env: seq<Frame>, cells: seq<FrameCells>)
    requires EnvAt(heads, tails, p, env, cells) && |env| > 0
    ensures |cells| == |env| && EnvAt(heads, tails, tails[cells[0].spine].d, env[1..], cells[1..])
  {
  }

  lemma {:induction false} EnvAtShaped(heads: Vector, tails: Vector, p: Datum, env: seq<Frame>, cells: seq<FrameCells>)
    requires EnvAt(heads, tails, p, env, cells)
    ensures Shaped(env, cells)
    decreases |env|
  {
    if |env| > 0 {
      var k := cells[0];
      EnvAtShaped(heads, tails, tails[k.spine].d, env[1..], cells[1..]);
      ShapedCons(env, cells);
    }
  }

  /** A layout is shaped when its first frame is and the rest is. */
  lemma {:induction false} ShapedCons(env: seq<Frame>, cells: seq<FrameCells>)
    requires |cells| == |env| > 0 && |cells[0].bindings| == |env[0]| && Shaped(env[1..], cells[1..])
    ensures Shaped(env, cells)
  {
    forall i | 0 < i < |env|
      ensures |cells[i].bindings| == |env[i]|
    {
      assert cells[1..][i - 1] == cells[i] && env[1..][i - 1] == env[i];
    }
  }

  /** On a well-shaped layout the cell the walk should find is the value
      cell of the binding `Find` picks. */
  lemma {:induction false} FoundCellIsFind(env: seq<Frame>, cells: seq<FrameCells>, name: Datum)
    requires Shaped(env, cells)
    ensures Find(env, name).None? ==> FoundCell(env, cells, name).None?
    ensures Find(env, name).Some? ==>
      (Find(env, name).value.1 < |cells[Find(env, name).value.0].bindings| &&
       FoundCell(env, cells, name) == Some(cells[Find(env, name).value.0].bindings[Find(env, name).value.1].cell))
    decreases |env|
  {
    if |env| > 0 && FrameIndex(env[0], name).None? {
      assert Shaped(env[1..], cells[1..]) by {
        forall i | 0 <= i < |env[1..]|
          ensures |cells[1..][i].bindings| == |env[1..][i]|
        {
          assert cells[1..][i] == cells[i + 1] && env[1..][i] == env[i + 1];
        }
      }
      FoundCellIsFind(env[1..], cells[1..], name);
      if Find(env[1..], name).Some? {
        var (i, j) := Find(env[1..], name).value;
        assert cells[1..][i] == cells[i + 1];
      }
    }
  }

  /** `lookup_name_value` on an environment laid out in the heap answers
      what the reference lookup answers: the value of the innermost binding
      of the name, or an unbound-name error. */
  lemma {:induction false} LookupMatchesReference(heads: Vector, tails: Vector, name: Datum, p: Datum,
                               env: seq<Frame>, cells: seq<FrameCells>, fuel: nat)
    requires !name.Pair? && EnvAt(heads, tails, p, env, cells) && fuel >= EnvCost(env)
    ensures LookupNameValue(heads, tails, Wrap(name), p, fuel) == LookupRef(env, name)
  {
    EnvFinds(heads, tails, name, p, env, cells, fuel);
    EnvAtShaped(heads, tails, p, env, cells);
    FoundCellIsFind(env, cells, name);
    if Find(env, name).Some? {
      var (i, j) := Find(env, name).value;
      EnvAtCells(heads, tails, p, env, cells, i, j);
      PointersAreNotNull(cells[i].bindings[j].cell);
    }
  }

  // ---- assignment ----

  /** The cells the walk itself reads: spine, frame, name-list and
      value-list cells. */
  function BindingStructure(bs: seq<BindingCells>): set<int>
    decreases |bs|
  {
    if |bs| == 0 then {} else {bs[0].name, bs[0].link} + BindingStructure(bs[1..])
  }

  function Structure(cells: seq<FrameCells>): set<int>
    decreases |cells|
  {
    if |cells| == 0 then {}
    else {cells[0].spine, cells[0].frame} + BindingStructure(cells[0].bindings) + Structure(cells[1..])
  }

  /** Every binding has a value cell of its own, apart from the cells the
      walk reads. */
  predicate Separated(cells: seq<FrameCells>)
  {
    && (forall i, j :: 0 <= i < |cells| && 0 <= j < |cells[i].bindings| ==>
          cells[i].bindings[j].cell !in Structure(cells))
    && (forall i, j, i', j' ::
          (0 <= i < |cells| && 0 <= j < |cells[i].bindings| &&
           0 <= i' < |cells| && 0 <= j' < |cells[i'].bindings| &&
           cells[i].bindings[j].cell == cells[i'].bindings[j'].cell) ==> i == i' && j == j')
  }

  /** The frame after writing `v` into value cell `n`. */
  function SetValues(frame: Frame, bs: seq<BindingCells>, n: int, v: Datum): (r: Frame)
    requires |bs| == |frame|
    ensures |r| == |frame|
  {
    seq(|frame|, j requires 0 <= j < |frame| => if bs[j].cell == n then frame[j].(value := v) else frame[j])
  }

  /** The environment after writing `v` into value cell `n`. */
  function SetEnv(env: seq<Frame>, cells: seq<FrameCells>, n: int, v: Datum): (r: seq<Frame>)
    requires Shaped(env, cells)
    ensures |r| == |env|
  {
    seq(|env|, i requires 0 <= i < |env| => SetValues(env[i], cells[i].bindings, n, v))
  }

  /** Writing a cell the walk does not read keeps the layout of every
      frame, with the bindings stored in that cell now holding `v`. */
  lemma {:induction false} BindingsAtKept(heads: Vector, tails: Vector, c: Datum, d: Datum,
                                          frame: Frame, bs: seq<BindingCells>, n: int, v: Datum)
    requires BindingsAt(heads, tails, c, d, frame, bs) && n !in BindingStructure(bs)
    ensures BindingsAt(heads[n := Data(v)], tails, c, d, SetValues(frame, bs, n, v), bs)
    decreases |frame|
  {
    if |frame| > 0 {
      var c', d' := tails[bs[0].name].d, tails[bs[0].link].d;
      assert n != bs[0].name && n != bs[0].link && n !in BindingStructure(bs[1..]);
      SetValuesSplit(frame, bs, n, v);
      BindingKept(heads, tails, c, d, frame[0], bs[0], n, v);
      BindingsAtKept(heads, tails, c', d', frame[1..], bs[1..], n, v);
    }
  }

  /** Writing a cell other than a binding's name-list and value-list cells
      keeps the binding, with its value replaced when the cell is its value
      cell. */
  lemma {:induction false} BindingKept(heads: Vector, tails: Vector, c: Datum, d: Datum, x: Binding,
                                       k: BindingCells, n: int, v: Datum)
    requires BindingCellsHold(heads, tails, c, d, x, k) && n != k.name && n != k.link
    ensures BindingCellsHold(heads[n := Data(v)], tails, c, d, if k.cell == n then x.(value := v) else x, k)
  {
  }

  lemma {:induction false} EnvAtKept(heads: Vector, tails: Vector, p: Datum, env: seq<Frame>,
                                     cells: seq<FrameCells>, n: int, v: Datum)
    requires EnvAt(heads, tails, p, env, cells) && n !in Structure(cells)
    ensures Shaped(env, cells)
    ensures EnvAt(heads[n := Data(v)], tails, p, SetEnv(env, cells, n, v), cells)
    decreases |env|
  {
    EnvAtShaped(heads, tails, p, env, cells);
    if |env| > 0 {
      var k := cells[0];
      BindingsAtKept(heads, tails, heads[k.frame].d, tails[k.frame].d, env[0], k.bindings, n, v);
      EnvAtKept(heads, tails, tails[k.spine].d, env[1..], cells[1..], n, v);
      SetEnvSplit(env, cells, n, v);
    }
  }

  /** `SetValues` splits into its first binding and the rest. */
  lemma {:induction false} SetValuesSplit(frame: Frame, bs: seq<BindingCells>, n: int, v: Datum)
    requires |bs| == |frame| > 0
    ensures SetValues(frame, bs, n, v)[0] == if bs[0].cell == n then frame[0].(value := v) else frame[0]
    ensures SetValues(frame, bs, n, v)[1..] == SetValues(frame[1..], bs[1..], n, v)
  {
    var r, r' := SetValues(frame, bs, n, v), SetValues(frame[1..], bs[1..], n, v);
    forall j | 0 <= j < |r'|
      ensures r[1..][j] == r'[j]
    {
      assert bs[1..][j] == bs[j + 1] && frame[1..][j] == frame[j + 1];
    }
  }

  /** `SetEnv` splits into its first frame and the rest. */
  lemma {:induction false} SetEnvSplit(env: seq<Frame>, cells: seq<FrameCells>, n: int, v: Datum)
    requires Shaped(env, cells) && |env| > 0
    ensures Shaped(env[1..], cells[1..])
    ensures SetEnv(env, cells, n, v)[0] == SetValues(env[0], cells[0].bindings, n, v)
    ensures SetEnv(env, cells, n, v)[1..] == SetEnv(env[1..], cells[1..], n, v)
  {
    assert forall i :: 0 <= i < |env[1..]| ==> env[1..][i] == env[i + 1] && cells[1..][i] == cells[i + 1];
    var r, r' := SetEnv(env, cells, n, v), SetEnv(env[1..], cells[1..], n, v);
    forall i | 0 <= i < |r'|
      ensures r[1..][i] == r'[i]
    {
      assert env[1..][i] == env[i + 1] && cells[1..][i] == cells[i + 1];
    }
  }

  /** With value cells of their own, writing the cell of binding `j` of
      frame `i` changes that binding alone. */
  lemma {:induction false} SetEnvIsUpdate(env: seq<Frame>, cells: seq<FrameCells>, i: nat, j: nat, v: Datum)
    requires Shaped(env, cells) && Separated(cells) && i < |env| && j < |env[i]|
    ensures SetEnv(env, cells, cells[i].bindings[j].cell, v) == env[i := env[i][j := env[i][j].(value := v)]]
  {
    var n := cells[i].bindings[j].cell;
    var r := SetEnv(env, cells, n, v);
    var u := env[i := env[i][j := env[i][j].(value := v)]];
    forall i' | 0 <= i' < |env|
      ensures r[i'] == u[i']
    {
      forall j' | 0 <= j' < |env[i']|
        ensures r[i'][j'] == u[i'][j']
      {
        assert cells[i'].bindings[j'].cell == n <==> i' == i && j' == j;
      }
    }
  }

  /** `assign_name_value` on an environment laid out in the heap fails
      exactly when the reference assignment does, with the same error, and
      otherwise leaves the heap holding the reference's updated environment. */
  lemma {:induction false} AssignMatchesReference(heads: Vector, tails: Vector, name: Datum, v: Datum, p: Datum,
                               env: seq<Frame>, cells: seq<FrameCells>, fuel: nat)
    requires !name.Pair? && EnvAt(heads, tails, p, env, cells) && fuel >= EnvCost(env) && Separated(cells)
    ensures AssignNameValue(heads, tails, Wrap(name), v, p, fuel).Ok? <==> AssignRef(env, name, v).Ok?
    ensures AssignNameValue(heads, tails, Wrap(name), v, p, fuel).Err? ==>
      AssignNameValue(heads, tails, Wrap(name), v, p, fuel).error == AssignRef(env, name, v).error
    ensures AssignNameValue(heads, tails, Wrap(name), v, p, fuel).Ok? ==>
      EnvAt(AssignNameValue(heads, tails, Wrap(name), v, p, fuel).value, tails, p, AssignRef(env, name, v).value, cells)
  {
    EnvFinds(heads, tails, name, p, env, cells, fuel);
    EnvAtShaped(heads, tails, p, env, cells);
    FoundCellIsFind(env, cells, name);
    if Find(env, name).Some? {
      var (i, j) := Find(env, name).value;
      AssignAtCell(heads, tails, name, v, p, env, cells, fuel, i, j);
    }
  }

  /** The found case of `AssignMatchesReference`: the walk has reached the
      value cell of binding `(i, j)`, which the reference assignment picks. */
  lemma {:induction false} AssignAtCell(heads: Vector, tails: Vector, name: Datum, v: Datum, p: Datum,
                               env: seq<Frame>, cells: seq<FrameCells>, fuel: nat, i: nat, j: nat)
    requires !name.Pair? && EnvAt(heads, tails, p, env, cells) && Separated(cells)
    requires Find(env, name) == Some((i, j)) && i < |env| && j < |env[i]| && Shaped(env, cells)
    requires EnvLoop(heads, tails, Wrap(name), p, fuel) == Ok(Ptr(cells[i].bindings[j].cell))
    ensures AssignNameValue(heads, tails, Wrap(name), v, p, fuel).Ok? <==> AssignRef(env, name, v).Ok?
    ensures AssignNameValue(heads, tails, Wrap(name), v, p, fuel).Err? ==>
      AssignNameValue(heads, tails, Wrap(name), v, p, fuel).error == AssignRef(env, name, v).error
    ensures AssignNameValue(heads, tails, Wrap(name), v, p, fuel).Ok? ==>
      EnvAt(AssignNameValue(heads, tails, Wrap(name), v, p, fuel).value, tails, p, AssignRef(env, name, v).value, cells)
  {
    var n := cells[i].bindings[j].cell;
    EnvAtCells(heads, tails, p, env, cells, i, j);
    PointersAreNotNull(n);
    PointerAndAddressSameSlot(n);
    StrictEqualsWrapped(Bool(env[i][j].assignable), Bool(false), 0, "");
    if env[i][j].assignable {
      EnvAtKept(heads, tails, p, env, cells, n, v);
      SetEnvIsUpdate(env, cells, i, j, v);
    }
  }
}
