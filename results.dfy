/** The ways the separation pipeline and the subband transform fail. Each
    constructor stands for the exception the original raises at that point. */
module Results {

  datatype Failure =
    | DivisionByZero         // ZeroDivisionError: a segment length of zero
    | InconsistentLength     // enframe's assertion: length not a multiple of the segment length
    | NonDivisible           // deframe's assertions: quarter points not whole samples
    | NoSegments             // IndexError: deframing an empty segment stack
    | MissingKey(key: string) // KeyError: a dictionary lookup of an absent key
    | ShapeMismatch          // a reshape or concatenation whose sizes do not agree
    | InvalidSubbands        // a subband count that is not positive
    | WrongRank              // ValueError: unpacking a shape with the wrong number of axes

  datatype Result<T> = Ok(value: T) | Err(error: Failure)
  {
    predicate IsFailure() { Err? }

    function PropagateFailure<U>(): Result<U>
      requires Err?
    {
      Err(error)
    }

    function Extract(): T
      requires Ok?
    {
      value
    }
  }
}
