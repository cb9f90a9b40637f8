/** Results and the exceptions the workflow engine raises.
    A Python exception becomes an `Error` whose `kind` is the exception class
    and whose `reason` carries what the message reports. */
module Wrappers {

  datatype Option<+T> = None | Some(value: T)

  /** The Python exception classes raised by the modelled code. */
  datatype Kind =
    | ValueError
    | IndexError
    | TypeError
    | KeyError
    | AttributeError
    | ModuleNotFoundError

  /** What an exception message reports. */
  datatype Reason =
    | NoMethod(step: string)                               // step without a chosen method
    | NotEnoughSteps(added: nat, required: nat)            // fewer earlier steps than inputs
    | WrongInputCount(expected: nat, provided: nat)        // explicit input_step of wrong length
    | InvalidStepIndex(index: int, bound: nat)             // input_step entry too large
    | ListIndexOutOfRange(index: int, length: nat)         // Python list indexing failure
    | InvalidMode(mode: string)                            // specify_parameters mode
    | AlignLengths(expected: nat, found: nat)              // align mode with unequal lists
    | LengthOfValues(values: nat, rows: nat)               // pandas column assignment mismatch
    | PassedShape(passed: nat, implied: nat)               // DataFrame columns wider than the values
    | NotTwoDimensional(shape: seq<nat>)                   // DataFrame from an array of three or more axes
    | MissingParameter(name: string)                       // mandatory parameter absent
    | InvalidType(name: string)                            // value of a type not allowed
    | UnknownMethod(name: string, available: seq<string>)  // method not in the registry
    | InputCountMismatch(expected: nat, provided: nat)     // deferred parameters vs inputs
    | InvalidSize(length: nat)                             // convert_size input length
    | DimensionMismatch(x: nat, y: nat)                    // unify_shape ranks differ
    | MissingKey(key: string)                              // dict.pop of an absent key
    | MissingAttribute(attribute: string)                  // attribute lookup failure
    | NotCallable                                          // calling None
    | NotSubscriptable                                     // indexing None

  datatype Error = Error(kind: Kind, reason: Reason)

  datatype Result<+T> = Ok(value: T) | Err(error: Error) {
    predicate IsFailure() { Err? }

    function PropagateFailure<U>(): Result<U>
      requires Err?
    {
      Err(error)
    }

    function Extract(): T
      requires Ok?
    {
      value
    }
  }

  datatype Outcome = Pass | Fail(error: Error) {
    predicate IsFailure() { Fail? }

    function PropagateFailure<U>(): Result<U>
      requires Fail?
    {
      Err(error)
    }
  }

  /** The first i + 1 elements are the first i, then element i. */
  lemma PrefixSnoc<T>(s: seq<T>, i: nat)
    requires i < |s|
    ensures s[..i + 1] == s[..i] + [s[i]]
  {
  }

  lemma SliceSnoc<T>(s: seq<T>, lo: nat, hi: nat)
    requires lo <= hi < |s|
    ensures s[lo..hi + 1] == s[lo..hi] + [s[hi]]
  { }
}
