/**
  The failures the simulator raises with `error(...)`, and the result type
  every fallible operation of the model returns.
 */
module Errors {
  import opened HostData

  datatype Error =
    | NotAPair(d: Datum)                    // `head`/`tail` of a non-pair
    | InvalidTypedElem(d: Datum)            // "Invalid typed elem"
    | UnknownInstructionType(inst: Datum)   // "Unknown instruction type: ASSEMBLE"
    | BadTestInstruction(inst: Datum)       // "Bad TEST instruction: ASSEMBLE"
    | BadBranchInstruction(inst: Datum)     // "Bad BRANCH instruction: ASSEMBLE"
    | BadGotoInstruction(inst: Datum)       // "Bad GOTO instruction: ASSEMBLE"
    | BadPerformInstruction(inst: Datum)    // "Bad PERFORM instruction: ASSEMBLE"
    | UnknownExpressionType(exp: Datum)     // "Unknown expression type: ASSEMBLE"
    | UndefinedLabel(name: Datum)           // "Undefined label: ASSEMBLE"
    | UnknownRegister(name: Datum)          // "Unknown register:"
    | UnknownOperation(name: Datum)         // "Unknown operation: ASSEMBLE"
    | MultiplyDefinedRegister(reg: string)  // "Multiply defined register: "
    | EmptyStack                            // "Empty stack: POP"
    | NotAnInstructionList                  // the program counter holds no instruction list
    | BadOperand                            // an operand kind the model gives no meaning to
    | BadIndex                              // a vector index that is not an integer
    | AssignToConstant(name: Datum)         // "no assignment to constants allowed"
    | UnboundName(name: Datum)              // the environment was exhausted
    | OutOfFuel                             // a bounded walk did not finish

  /** Errors that the assembler and `make_machine` raise before any step runs. */
  predicate IsSetupError(e: Error)
  {
    || e.UnknownInstructionType? || e.BadTestInstruction? || e.BadBranchInstruction?
    || e.BadGotoInstruction? || e.BadPerformInstruction? || e.UnknownExpressionType?
    || e.UndefinedLabel? || e.UnknownRegister? || e.UnknownOperation?
    || e.MultiplyDefinedRegister?
  }

  datatype Result<+T> = Ok(value: T) | Err(error: Error) {
    predicate IsFailure() { Err? }

    function PropagateFailure<U>(): Result<U>
      requires Err?
    {
      Err(error)
    }

    function Extract(): T
      requires Ok?
    {
      value
    }
  }

  /** `head`: fails on anything but a pair. */
  function Head(d: Datum): (r: Result<Datum>)
    ensures r.Ok? <==> d.Pair?
    ensures r.Ok? ==> r.value == d.hd
    ensures r.Err? ==> r.error == NotAPair(d)
  {
    if d.Pair? then Ok(d.hd) else Err(NotAPair(d))
  }

  /** `tail`: fails on anything but a pair. */
  function Tail(d: Datum): (r: Result<Datum>)
    ensures r.Ok? <==> d.Pair?
    ensures r.Ok? ==> r.value == d.tl
    ensures r.Err? ==> r.error == NotAPair(d)
  {
    if d.Pair? then Ok(d.tl) else Err(NotAPair(d))
  }

  /** `is_tagged_list(exp, tag)`: a pair whose head is the string `tag`.
      It is the host helper of the machine file, which the assembler uses
      to classify instruction and expression texts and the syntax
      predicates build on. It sits here, beside `head` and `tail`, because
      its contract is stated through `Head`; `HostData` cannot hold it, as
      this module imports `HostData`. */
  function IsTaggedList(d: Datum, tag: string): (r: bool)
    ensures r <==> Head(d) == Ok(Str(tag))
  {
    d.Pair? && d.hd == Str(tag)
  }
}
