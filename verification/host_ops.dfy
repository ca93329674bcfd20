/**
  The native functions that operation tables bind to names: the arithmetic
  and printing functions the test controllers install, the garbage-collector
  helpers `gc_ops` of 5.3.js:600-604, and the pointer successor `inc_ptr`.
 */
module HostOps {
  import opened HostData
  import opened Errors
  import DP = DraftPointers

  datatype HostFn =
    | Add              // (a, b) => a + b
    | Sub              // (a, b) => a - b
    | Less             // (a, b) => a < b
    | Rem              // (a, b) => a % b
    | StrictEq         // (a, b) => a === b
    | Display          // display: prints its argument and returns it
    | IsEqualFn        // "===" of gc_ops: is_equal
    | IsBrokenHeart    // str => is_equal(str, "broken_heart")
    | IsPointerToPair  // is_ptr of 5.3.js
    | IncPtr           // successor of an address, bare or inside a pointer pair

  /** JavaScript passes `undefined` for a missing argument. */
  function Arg(args: seq<Datum>, i: nat): Datum
  {
    if i < |args| then args[i] else Undefined
  }

  /** JavaScript's `%`: the remainder of division truncated toward zero. */
  function JsRem(a: int, b: int): (r: int)
    requires b != 0
    ensures a >= 0 ==> 0 <= r < (if b > 0 then b else -b)
    ensures a < 0 ==> -(if b > 0 then b else -b) < r <= 0
  {
    if a >= 0 then a % b else -((-a) % b)
  }

  /** The truncated remainder differs from the dividend by a multiple of the
      divisor. */
  lemma {:induction false} JsRemIsRemainder(a: int, b: int)
    requires b != 0
    ensures exists q :: a == q * b + JsRem(a, b)
  {
    if a >= 0 {
      assert a == (a / b) * b + a % b;
    } else {
      assert -a == ((-a) / b) * b + (-a) % b;
      assert a == (-((-a) / b)) * b + JsRem(a, b);
    }
  }

  /** JavaScript's `<` on two strings: lexicographic order on characters,
      where a proper prefix comes first. */
  function StrLess(a: string, b: string): bool
  {
    if |b| == 0 then false
    else if |a| == 0 then true
    else if a[0] != b[0] then a[0] < b[0]
    else StrLess(a[1..], b[1..])
  }

  /** `a` is a proper prefix of `b`. */
  predicate ProperPrefix(a: string, b: string)
  {
    |a| < |b| && a == b[..|a|]
  }

  /** `a` and `b` agree up to a position where `a` has the smaller character. */
  predicate FirstDifferenceLower(a: string, b: string)
  {
    exists i :: 0 <= i < |a| && i < |b| && a[i] < b[i] && forall j :: 0 <= j < i ==> a[j] == b[j]
  }

  /** `StrLess` is the usual lexicographic order: a proper prefix comes
      first, and otherwise the first differing character decides. */
  lemma {:induction false} StrLessMeaning(a: string, b: string)
    ensures StrLess(a, b) <==> ProperPrefix(a, b) || FirstDifferenceLower(a, b)
    decreases |a|
  {
    if |a| > 0 && |b| > 0 {
      if a[0] == b[0] {
        StrLessMeaning(a[1..], b[1..]);
        SameHeadPrefix(a, b);
        SameHeadDifference(a, b);
      } else {
        DifferentHeadOrder(a, b);
      }
    }
  }

  lemma {:induction false} SameHeadPrefix(a: string, b: string)
    requires |a| > 0 && |b| > 0 && a[0] == b[0]
    ensures ProperPrefix(a, b) <==> ProperPrefix(a[1..], b[1..])
  {
    var a', b' := a[1..], b[1..];
    if ProperPrefix(a, b) {
      assert a' == b'[..|a'|];
    }
    if ProperPrefix(a', b') {
      assert a == [a[0]] + a' && b[..|a|] == [b[0]] + b'[..|a'|];
    }
  }

  lemma {:induction false} SameHeadDifference(a: string, b: string)
    requires |a| > 0 && |b| > 0 && a[0] == b[0]
    ensures FirstDifferenceLower(a, b) <==> FirstDifferenceLower(a[1..], b[1..])
  {
    var a', b' := a[1..], b[1..];
    if FirstDifferenceLower(a, b) {
      var i :| 0 <= i < |a| && i < |b| && a[i] < b[i] && forall j :: 0 <= j < i ==> a[j] == b[j];
      assert i > 0;
      assert a'[i - 1] < b'[i - 1];
      assert forall j :: 0 <= j < i - 1 ==> a'[j] == a[j + 1];
    }
    if FirstDifferenceLower(a', b') {
      var i :| 0 <= i < |a'| && i < |b'| && a'[i] < b'[i] && forall j :: 0 <= j < i ==> a'[j] == b'[j];
      assert a[i + 1] < b[i + 1];
      assert forall j :: 1 <= j < i + 1 ==> a[j] == a'[j - 1];
    }
  }

  lemma {:induction false} DifferentHeadOrder(a: string, b: string)
    requires |a| > 0 && |b| > 0 && a[0] != b[0]
    ensures !ProperPrefix(a, b)
    ensures FirstDifferenceLower(a, b) <==> a[0] < b[0]
  {
    if a[0] < b[0] {
      assert 0 < |a| && 0 < |b| && a[0] < b[0];
    }
  }

  /** `StrLess` is a strict total order on strings. */
  lemma {:induction false} StrLessTotal(a: string, b: string)
    ensures !StrLess(a, a)
    ensures StrLess(a, b) ==> !StrLess(b, a)
    ensures a != b ==> StrLess(a, b) || StrLess(b, a)
    decreases |a|
  {
    if |a| > 0 && |b| > 0 {
      StrLessTotal(a[1..], b[1..]);
      if a[0] == b[0] && a != b {
        assert a == [a[0]] + a[1..] && b == [b[0]] + b[1..];
      }
    } else if |a| > 0 {
      StrLessTotal(a[1..], a[1..]);
    }
  }

  /** `StrLess` is transitive. */
  lemma {:induction false} StrLessTransitive(a: string, b: string, c: string)
    requires StrLess(a, b) && StrLess(b, c)
    ensures StrLess(a, c)
    decreases |a|
  {
    if |a| > 0 && a[0] == b[0] && b[0] == c[0] {
      StrLessTransitive(a[1..], b[1..], c[1..]);
    }
  }

  /** Applying a native function to host values.  JavaScript coercions that
      the model does not give a meaning to (adding a number to a string,
      comparing a number with a string, `%` by zero giving NaN, ...) are
      `BadOperand`. */
  function ApplyHost(f: HostFn, args: seq<Datum>): (r: Result<Datum>)
    ensures f.StrictEq? || f.IsEqualFn? || f.IsBrokenHeart? || f.IsPointerToPair? ==> r.Ok? && r.value.Bool?
    ensures f.Display? ==> r == Ok(Arg(args, 0))
    ensures f.Less? ==> (r.Ok? <==> (Arg(args, 0).Num? && Arg(args, 1).Num?) || (Arg(args, 0).Str? && Arg(args, 1).Str?))
    ensures f.Less? && r.Ok? && Arg(args, 0).Str? ==> r.value == Bool(StrLess(Arg(args, 0).s, Arg(args, 1).s))
    ensures f.Rem? ==> (r.Ok? <==> Arg(args, 0).Num? && Arg(args, 1).Num? && Arg(args, 1).n != 0)
    ensures f.Sub? ==> (r.Ok? <==> Arg(args, 0).Num? && Arg(args, 1).Num?)
  {
    var a := Arg(args, 0);
    var b := Arg(args, 1);
    match f
    case Add =>
      if a.Num? && b.Num? then Ok(Num(a.n + b.n))
      else if a.Str? && b.Str? then Ok(Str(a.s + b.s))
      else Err(BadOperand)
    case Sub => if a.Num? && b.Num? then Ok(Num(a.n - b.n)) else Err(BadOperand)
    case Less =>
      if a.Num? && b.Num? then Ok(Bool(a.n < b.n))
      else if a.Str? && b.Str? then Ok(Bool(StrLess(a.s, b.s)))
      else Err(BadOperand)
    case Rem => if a.Num? && b.Num? && b.n != 0 then Ok(Num(JsRem(a.n, b.n))) else Err(BadOperand)
    case StrictEq => Ok(Bool(a == b))
    case Display => Ok(a)
    case IsEqualFn => Ok(Bool(IsEqual(a, b)))
    case IsBrokenHeart => Ok(Bool(IsEqual(a, Str("broken_heart"))))
    case IsPointerToPair => Ok(Bool(DP.IsPtr(a)))
    case IncPtr =>
      if a.Num? then Ok(Num(a.n + 1))
      else if a.Pair? && a.tl.Num? then Ok(Pair(a.hd, Num(a.tl.n + 1)))
      else Err(BadOperand)
  }

  /** The garbage-collector helpers: `is_broken_heart` recognises exactly the
      string "broken_heart", and both `===` flavours are structural equality. */
  lemma {:induction false} GcOpsMeaning(a: Datum, b: Datum)
    ensures ApplyHost(IsBrokenHeart, [a]) == Ok(Bool(a == Str("broken_heart")))
    ensures ApplyHost(IsEqualFn, [a, b]) == Ok(Bool(a == b))
    ensures ApplyHost(IsEqualFn, [a, b]) == ApplyHost(IsEqualFn, [b, a])
    ensures ApplyHost(IsEqualFn, [a, a]) == Ok(Bool(true))
    ensures ApplyHost(IsPointerToPair, [a]) == Ok(Bool(DP.IsPtr(a)))
  {
    IsEqualIsEquality(a, Str("broken_heart"));
    IsEqualIsEquality(a, b);
    IsEqualIsEquality(b, a);
    IsEqualIsEquality(a, a);
  }

  /** `inc_ptr` moves a bare address or the address inside a pointer pair one
      slot forward and keeps the pointer's tag. */
  lemma {:induction false} IncPtrIsSuccessor(n: int, tag: Datum)
    ensures ApplyHost(IncPtr, [Num(n)]) == Ok(Num(n + 1))
    ensures ApplyHost(IncPtr, [Pair(tag, Num(n))]) == Ok(Pair(tag, Num(n + 1)))
  {
  }
}
