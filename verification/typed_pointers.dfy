/**
  Typed pointers (4.1_to_register.js:1-79): every value held in a register,
  a heap cell or on the stack is a pair `(tag, payload)` over seven tags.
  `wrap_ptr` classifies a host atom, `unwrap_ptr` strips the tag again.
 */
module TypedPointers {
  import opened HostData
  import opened Errors

  datatype Tag = NumberTag | BoolTag | StringTag | PtrTag | PcTag | NullTag | UndefinedTag

  /** The tag strings NUMBER_TYPE ... UNDEFINED_TYPE. */
  function TagName(t: Tag): string
  {
    match t
    case NumberTag => "number"
    case BoolTag => "bool"
    case StringTag => "string"
    case PtrTag => "ptr"
    case PcTag => "pc"
    case NullTag => "null"
    case UndefinedTag => "undefined"
  }

  function TagOfName(s: string): (r: Option<Tag>)
    ensures r.Some? ==> TagName(r.value) == s
  {
    if s == "number" then Some(NumberTag)
    else if s == "bool" then Some(BoolTag)
    else if s == "string" then Some(StringTag)
    else if s == "ptr" then Some(PtrTag)
    else if s == "pc" then Some(PcTag)
    else if s == "null" then Some(NullTag)
    else if s == "undefined" then Some(UndefinedTag)
    else None
  }

  /** The seven tag strings are distinct, so a tag string names one tag. */
  lemma {:induction false} TagNameInjective(t: Tag, u: Tag)
    ensures TagOfName(TagName(t)) == Some(t)
    ensures TagName(t) == TagName(u) ==> t == u
  {
  }

  /** A decoded typed pointer. */
  datatype TypedPtr = TypedPtr(tag: Tag, payload: Datum)

  /** The host representation `pair(tag, payload)`. */
  function Encode(p: TypedPtr): Datum
  {
    Pair(Str(TagName(p.tag)), p.payload)
  }

  /** `is_ptr`: a pair of two non-pairs whose head is one of the seven tags. */
  predicate IsPtr(d: Datum)
  {
    d.Pair? && !d.hd.Pair? && !d.tl.Pair? && d.hd.Str? && TagOfName(d.hd.s).Some?
  }

  /** Reads a host value back as a typed pointer, when it is one. */
  function Decode(d: Datum): (r: Option<TypedPtr>)
    ensures r.Some? <==> IsPtr(d)
  {
    if IsPtr(d) then Some(TypedPtr(TagOfName(d.hd.s).value, d.tl)) else None
  }

  /** Encoding then decoding a pointer with an atomic payload is the identity,
      and every host value `is_ptr` accepts is the encoding of its decoding. */
  lemma {:induction false} DecodeEncode(p: TypedPtr, d: Datum)
    ensures !p.payload.Pair? ==> Decode(Encode(p)) == Some(p)
    ensures Decode(d).Some? ==> Encode(Decode(d).value) == d
  {
    TagNameInjective(p.tag, p.tag);
  }

  /** `is_number_ptr` ... `is_prog_ptr`: a pair with an atomic payload whose
      head is the given tag string (`HasTagIsPtrAndTag` shows this is `is_ptr`
      and the tag). */
  predicate HasTag(d: Datum, t: Tag)
  {
    d.Pair? && !d.tl.Pair? && d.hd == Str(TagName(t))
  }

  lemma {:induction false} HasTagIsPtrAndTag(d: Datum, t: Tag)
    ensures HasTag(d, t) <==> IsPtr(d) && d.hd == Str(TagName(t))
  {
    TagNameInjective(t, t);
  }

  predicate IsNumberPtr(d: Datum) { HasTag(d, NumberTag) }
  predicate IsBoolPtr(d: Datum) { HasTag(d, BoolTag) }
  predicate IsStringPtr(d: Datum) { HasTag(d, StringTag) }
  predicate IsPtrPtr(d: Datum) { HasTag(d, PtrTag) }
  predicate IsNullPtr(d: Datum) { HasTag(d, NullTag) }
  predicate IsUndefinedPtr(d: Datum) { HasTag(d, UndefinedTag) }
  predicate IsProgPtr(d: Datum) { HasTag(d, PcTag) }

  /** A typed pointer carries exactly one tag, the one it decodes to. */
  lemma {:induction false} HasTagExactlyDecodedTag(d: Datum, t: Tag)
    ensures HasTag(d, t) <==> (Decode(d).Some? && Decode(d).value.tag == t)
  {
    if IsPtr(d) {
      TagNameInjective(t, TagOfName(d.hd.s).value);
    }
  }

  function MakePtrPtr(idx: int): (d: Datum)
    ensures Decode(d) == Some(TypedPtr(PtrTag, Num(idx)))
  {
    Pair(Str(TagName(PtrTag)), Num(idx))
  }

  function MakeNullPtr(): (d: Datum)
    ensures Decode(d) == Some(TypedPtr(NullTag, Null))
  {
    Pair(Str(TagName(NullTag)), Null)
  }

  /** `make_prog_ptr`; the payload is whatever it is given, so the result is
      only a well-formed pointer when `idx` is an atom. */
  function MakeProgPtr(idx: Datum): (d: Datum)
    ensures !idx.Pair? ==> Decode(d) == Some(TypedPtr(PcTag, idx))
    ensures d.Pair? && d.tl == idx
  {
    Pair(Str(TagName(PcTag)), idx)
  }

  /** `get_elem_type`: the tag naming an atom's kind; a pair is refused. */
  function ElemType(x: Datum): (r: Result<Tag>)
    ensures r.Err? <==> x.Pair?
    ensures r.Err? ==> r.error == InvalidTypedElem(x)
  {
    match x
    case Num(_) => Ok(NumberTag)
    case Bool(_) => Ok(BoolTag)
    case Str(_) => Ok(StringTag)
    case Null => Ok(NullTag)
    case Undefined => Ok(UndefinedTag)
    case Pair(_, _) => Err(InvalidTypedElem(x))
  }

  /** `wrap_ptr`. */
  function WrapPtr(x: Datum): (r: Result<Datum>)
    ensures r.Ok? <==> !x.Pair?
    ensures r.Ok? ==> IsPtr(r.value)
    ensures r.Err? ==> r.error == InvalidTypedElem(x)
  {
    var t :- ElemType(x);
    Ok(Pair(Str(TagName(t)), x))
  }

  /** `unwrap_ptr`: the tail of the pointer pair. */
  function UnwrapPtr(p: Datum): (r: Result<Datum>)
    ensures IsPtr(p) ==> r.Ok?
    ensures r.Ok? <==> p.Pair?
    ensures r.Ok? ==> r.value == p.tl
    ensures r.Err? ==> r.error == NotAPair(p)
  {
    Tail(p)
  }

  /** Wrapping an atom and unwrapping it gives the atom back; the tag names
      the atom's kind and is never "ptr" or "pc"; a pair cannot be wrapped. */
  lemma {:induction false} WrapUnwrap(x: Datum)
    ensures !x.Pair? ==> UnwrapPtr(WrapPtr(x).value) == Ok(x)
    ensures x.Num? <==> (WrapPtr(x).Ok? && IsNumberPtr(WrapPtr(x).value))
    ensures x.Bool? <==> (WrapPtr(x).Ok? && IsBoolPtr(WrapPtr(x).value))
    ensures x.Str? <==> (WrapPtr(x).Ok? && IsStringPtr(WrapPtr(x).value))
    ensures x.Null? <==> (WrapPtr(x).Ok? && IsNullPtr(WrapPtr(x).value))
    ensures x.Undefined? <==> (WrapPtr(x).Ok? && IsUndefinedPtr(WrapPtr(x).value))
    ensures WrapPtr(x).Ok? ==> !IsPtrPtr(WrapPtr(x).value) && !IsProgPtr(WrapPtr(x).value)
    ensures x.Pair? ==> WrapPtr(x) == Err(InvalidTypedElem(x))
  {
  }

  /** `is_number_ptr` as written: `is_ptr` is mentioned but not called, and a
      function value is truthy, so only the head is tested (and `head` fails
      on an atom). */
  function IsNumberPtrAsWritten(d: Datum): Result<bool>
  {
    var h :- Head(d);
    Ok(h == Str(TagName(NumberTag)))
  }

  /** The as-written test accepts a pair that is not a typed pointer and
      fails on an atom, where `is_ptr` would have answered false. */
  lemma {:induction false} IsNumberPtrAsWrittenDiverges()
    ensures IsNumberPtrAsWritten(Pair(Str("number"), Pair(Num(1), Num(2)))) == Ok(true)
    ensures !IsNumberPtr(Pair(Str("number"), Pair(Num(1), Num(2))))
    ensures IsNumberPtrAsWritten(Num(7)).Err? && !IsNumberPtr(Num(7))
  {
  }

  /** The corrected `is_number_ptr` agrees with the as-written one on every
      well-formed typed pointer and holds exactly of wrapped numbers. */
  lemma {:induction false} IsNumberPtrCorrected(d: Datum, x: Datum)
    ensures IsPtr(d) ==> IsNumberPtrAsWritten(d) == Ok(IsNumberPtr(d))
    ensures !x.Pair? ==> (IsNumberPtr(WrapPtr(x).value) <==> x.Num?)
  {
  }
}
