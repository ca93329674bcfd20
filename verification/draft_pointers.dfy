/**
  The untyped pointer helpers of the earlier draft (5.3.js:573-591): a
  pointer is `pair("ptr", address)` and the null pointer has address `null`.
 */
module DraftPointers {
  import opened HostData
  import opened Errors

  /** `make_ptr`. */
  function MakePtr(n: Datum): (d: Datum)
    ensures IsTaggedList(d, "ptr")
  {
    Pair(Str("ptr"), n)
  }

  /** `make_null_ptr`. */
  function MakeNullPtr(): Datum
  {
    MakePtr(Null)
  }

  /** `is_ptr`. */
  predicate IsPtr(d: Datum)
  {
    IsTaggedList(d, "ptr")
  }

  /** `ptr_address`. */
  function PtrAddress(d: Datum): (r: Result<Datum>)
    ensures IsPtr(d) ==> r == Ok(d.tl)
  {
    Tail(d)
  }

  /** `is_null_ptr` as written: `is_ptr(ptr) === is_null(ptr_address(ptr))`
      compares two booleans, so it also holds when both are false. */
  function IsNullPtrAsWritten(d: Datum): Result<bool>
  {
    var a :- PtrAddress(d);
    Ok(IsPtr(d) == (a == Null))
  }

  /** The evidently intended `is_null_ptr`: a pointer whose address is null. */
  predicate IsNullPtr(d: Datum)
  {
    IsPtr(d) && d.tl == Null
  }

  /** The as-written test calls a non-pointer pair with a non-null tail a null
      pointer, and fails outright on an atom. */
  lemma {:induction false} IsNullPtrAsWrittenDiverges()
    ensures IsNullPtrAsWritten(Pair(Str("number"), Num(5))) == Ok(true)
    ensures !IsNullPtr(Pair(Str("number"), Num(5)))
    ensures IsNullPtrAsWritten(Num(5)).Err? && !IsNullPtr(Num(5))
  {
  }

  /** On real pointers the two versions agree, and the corrected test holds of
      exactly one value: `make_null_ptr()`. */
  lemma {:induction false} IsNullPtrCorrected(d: Datum)
    ensures IsPtr(d) ==> IsNullPtrAsWritten(d) == Ok(IsNullPtr(d))
    ensures IsNullPtr(d) <==> d == MakeNullPtr()
  {
  }

  /** `make_null_ptr()` is a null pointer; `make_ptr(n)` with a non-null
      address is a pointer but not a null one (under both versions). */
  lemma {:induction false} NullPointerClassification(n: Datum)
    ensures IsPtr(MakeNullPtr()) && IsNullPtr(MakeNullPtr())
    ensures IsNullPtrAsWritten(MakeNullPtr()) == Ok(true)
    ensures n != Null ==> IsPtr(MakePtr(n)) && !IsNullPtr(MakePtr(n))
    ensures n != Null ==> IsNullPtrAsWritten(MakePtr(n)) == Ok(false)
    ensures PtrAddress(MakePtr(n)) == Ok(n)
  {
  }
}
