/**
  Host data of the simulator: the JavaScript values that controller texts,
  constants and syntax trees are built from, with the list and equality
  helpers (`list`, `is_equal`, `assoc`) the machine relies on.
 */
module HostData {

  datatype Option<+T> = None | Some(value: T)

  /** A JavaScript value as the machine sees it: numbers (modelled as
      integers), booleans, strings, `null`, `undefined` and pairs. */
  datatype Datum =
    | Num(n: int)
    | Bool(b: bool)
    | Str(s: string)
    | Null
    | Undefined
    | Pair(hd: Datum, tl: Datum)

  /** `list(x0, ..., xk)`: a chain of pairs ending in `null`. */
  function List(xs: seq<Datum>): (d: Datum)
    ensures |xs| == 0 <==> d == Null
    ensures |xs| > 0 ==> d.Pair? && d.hd == xs[0]
  {
    if |xs| == 0 then Null else Pair(xs[0], List(xs[1..]))
  }

  lemma {:induction false} ListOfTwo(a: Datum, b: Datum)
    ensures List([a, b]) == Pair(a, Pair(b, Null))
  {
    assert [a, b][1..] == [b];
    assert [b][1..] == [];
  }

  lemma {:induction false} ListOfThree(a: Datum, b: Datum, c: Datum)
    ensures List([a, b, c]) == Pair(a, Pair(b, Pair(c, Null)))
  {
    assert [a, b, c][1..] == [b, c];
    ListOfTwo(b, c);
  }

  /** The elements of a proper list, or None when `d` is not one. */
  function Elements(d: Datum): Option<seq<Datum>>
  {
    match d
    case Null => Some([])
    case Pair(h, t) =>
      (match Elements(t)
       case Some(rest) => Some([h] + rest)
       case None => None)
    case _ => None
  }

  lemma {:induction false} ElementsOfList(xs: seq<Datum>)
    ensures Elements(List(xs)) == Some(xs)
  {
    if |xs| > 0 {
      ElementsOfList(xs[1..]);
      assert [xs[0]] + xs[1..] == xs;
    }
  }

  lemma {:induction false} ListOfElements(d: Datum, xs: seq<Datum>)
    requires Elements(d) == Some(xs)
    ensures List(xs) == d
  {
    match d
    case Null =>
    case Pair(h, t) =>
      var rest := Elements(t).value;
      assert xs == [h] + rest;
      ListOfElements(t, rest);
      assert xs[1..] == rest;
  }

  /** `is_equal`: pairs are compared component-wise, anything else with
      `===`.  For two pairs `===` is object identity, which implies
      component-wise equality, so only atoms need the second disjunct. */
  predicate IsEqual(a: Datum, b: Datum)
  {
    (a.Pair? && b.Pair? && IsEqual(a.hd, b.hd) && IsEqual(a.tl, b.tl))
    || (!a.Pair? && a == b)
  }

  /** `is_equal` is exactly structural equality of host values. */
  lemma {:induction false} IsEqualIsEquality(a: Datum, b: Datum)
    ensures IsEqual(a, b) <==> a == b
  {
    if a.Pair? && b.Pair? {
      IsEqualIsEquality(a.hd, b.hd);
      IsEqualIsEquality(a.tl, b.tl);
    }
  }

  lemma {:induction false} IsEqualReflexiveSymmetric(a: Datum, b: Datum)
    ensures IsEqual(a, a)
    ensures IsEqual(a, b) <==> IsEqual(b, a)
  {
    IsEqualIsEquality(a, a);
    IsEqualIsEquality(a, b);
    IsEqualIsEquality(b, a);
  }

  /** `assoc`: the index of the first record whose key `is_equal`s `key`. */
  function Assoc<V>(key: Datum, records: seq<(Datum, V)>): (r: Option<nat>)
    ensures r.Some? ==> r.value < |records| && IsEqual(key, records[r.value].0)
    ensures r.Some? ==> forall j :: 0 <= j < r.value ==> !IsEqual(key, records[j].0)
    ensures r.None? ==> forall j :: 0 <= j < |records| ==> !IsEqual(key, records[j].0)
  {
    if |records| == 0 then None
    else if IsEqual(key, records[0].0) then Some(0)
    else match Assoc(key, records[1..])
      case Some(i) => Some(i + 1)
      case None => None
  }

  /** The record `assoc` finds is the first one with an equal key. */
  lemma {:induction false} AssocFirstMatch<V>(key: Datum, records: seq<(Datum, V)>, i: nat)
    requires i < |records| && records[i].0 == key
    requires forall j :: 0 <= j < i ==> records[j].0 != key
    ensures Assoc(key, records) == Some(i)
  {
    forall j | 0 <= j < |records|
      ensures IsEqual(key, records[j].0) <==> key == records[j].0
    {
      IsEqualIsEquality(key, records[j].0);
    }
  }
}
