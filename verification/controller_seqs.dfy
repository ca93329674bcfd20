/**
  Controller-writing helpers: a marked sub-sequence of instructions
  (`make_controller_seq`) and `flatten_controller_seqs`, which splices every
  marked sub-sequence of a controller list into the list, one level deep.
 */
module ControllerSeqs {
  import opened HostData
  import opened Errors

  /** The marker string `CONTROLLER_SEQ_HEADER`. */
  const SeqHeader := "controller_seq"

  /** `make_controller_seq`: the marker paired with the body. */
  function MakeControllerSeq(body: Datum): Datum
  {
    Pair(Str(SeqHeader), body)
  }

  /** `is_controller_seq`: a pair whose head is the marker string. */
  predicate IsControllerSeq(d: Datum)
  {
    IsTaggedList(d, SeqHeader)
  }

  /** The elements `xs` consed in front of `rest`; `List(xs)` when `rest` is
      `null`. */
  function ListOnto(xs: seq<Datum>, rest: Datum): Datum
  {
    if |xs| == 0 then rest else Pair(xs[0], ListOnto(xs[1..], rest))
  }

  /** The host `append`: it walks the first list and fails on the first
      element of its spine that is neither a pair nor `null`. */
  function Append(xs: Datum, ys: Datum): (r: Result<Datum>)
    ensures Elements(xs).Some? ==> r == Ok(ListOnto(Elements(xs).value, ys))
    ensures Elements(xs).None? ==> r.Err? && r.error.NotAPair?
  {
    match xs
    case Null => Ok(ys)
    case Pair(h, t) =>
      var rest :- Append(t, ys);
      assert Elements(xs).Some? ==> Elements(xs).value[1..] == Elements(t).value;
      Ok(Pair(h, rest))
    case _ => Err(NotAPair(xs))
  }

  /** `flatten_controller_seqs`: the tail is flattened first; a marked
      element is replaced by its body, any other element is kept. The
      result is always a list cell or `null`, and the only failure is
      meeting an atom where a list was expected (an improper controller
      list or marked body). `FlattenMeetsSpec` relates it to splicing on
      sequences. */
  function Flatten(cl: Datum): (r: Result<Datum>)
    ensures r.Ok? ==> r.value.Null? || r.value.Pair?
    ensures r.Err? ==> r.error.NotAPair?
  {
    match cl
    case Null => Ok(Null)
    case Pair(h, t) =>
      var rest :- Flatten(t);
      if IsControllerSeq(h) then Append(h.tl, rest) else Ok(Pair(h, rest))
    case _ => Err(NotAPair(cl))
  }

  // ---- the reference: splicing on sequences ----

  /** What one element of a controller list contributes: the elements of a
      marked body, or the element itself. */
  function Expand(item: Datum): Option<seq<Datum>>
  {
    if IsControllerSeq(item) then Elements(item.tl) else Some([item])
  }

  /** The concatenation of every element's contribution, or None when some
      marked body is not a proper list. */
  function Expanded(items: seq<Datum>): Option<seq<Datum>>
  {
    if |items| == 0 then Some([])
    else
      match (Expand(items[0]), Expanded(items[1..]))
      case (Some(a), Some(b)) => Some(a + b)
      case _ => None
  }

  /** Consing `xs` onto a proper list is the list of `xs` followed by it. */
  lemma {:induction false} ListOntoList(xs: seq<Datum>, ys: seq<Datum>)
    ensures ListOnto(xs, List(ys)) == List(xs + ys)
  {
    if |xs| > 0 {
      ListOntoList(xs[1..], ys);
      var zs := xs + ys;
      assert zs[0] == xs[0] && zs[1..] == xs[1..] + ys;
      assert List(zs) == Pair(zs[0], List(zs[1..]));
    } else {
      assert xs + ys == ys;
    }
  }

  /** A proper controller list whose marked bodies are proper lists
      flattens to the list of the spliced elements; an improper list or an
      improper marked body makes `flatten_controller_seqs` fail. */
  lemma {:induction false} FlattenMeetsSpec(cl: Datum)
    ensures Elements(cl).Some? && Expanded(Elements(cl).value).Some? ==>
              Flatten(cl) == Ok(List(Expanded(Elements(cl).value).value))
    ensures Elements(cl).None? || Expanded(Elements(cl).value).None? ==> Flatten(cl).Err?
  {
    match cl
    case Null =>
    case Pair(h, t) =>
      FlattenMeetsSpec(t);
      if Elements(t).Some? {
        var items := Elements(cl).value;
        assert items[0] == h && items[1..] == Elements(t).value;
        if Expanded(Elements(t).value).Some? {
          var b := Expanded(Elements(t).value).value;
          if IsControllerSeq(h) && Elements(h.tl).Some? {
            ListOntoList(Elements(h.tl).value, b);
          } else if !IsControllerSeq(h) {
            assert [h] + b == Expanded(items).value;
          }
        }
      }
    case _ =>
  }

  /** A controller list without marked elements is left as it is. */
  lemma {:induction false} FlattenFlat(items: seq<Datum>)
    requires forall i :: 0 <= i < |items| ==> !IsControllerSeq(items[i])
    ensures Flatten(List(items)) == Ok(List(items))
  {
    if |items| > 0 {
      FlattenFlat(items[1..]);
    }
  }
}
