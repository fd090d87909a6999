/** Error handling shared by every solver stage.

    The solver reports every failed sanity check by raising an exception that
    aborts the run; nothing is recovered silently. Here each such failure is a
    value: a stage returns `Ok(v)` or `Err(kind)`, and `:-` propagates the first
    failure exactly as the exception would have.
 */
module Outcomes {

  /** The kinds of failure the solver distinguishes. */
  datatype Error =
    | InvalidMaterial       // material name other than "Al" or "SS"
    | InvalidConfiguration  // a geometric, physical or numeric constant fails its sanity check
    | ShapeMismatch         // an array has the wrong shape or length (also numpy broadcast/index errors)
    | Instability           // a Courant or Fourier number violates its stability bound
    | PhysicalRange         // a temperature leaves its plausible band
    | OutOfBounds           // an interpolation query lies outside the source grid
    | InvalidArgument       // an argument outside its domain (dt <= 0, fin index, negative radius, ...)
    | UndefinedName         // the code reads a name it never defines

  /** An optional value (`None` in the program). */
  datatype Option<+T> = None | Some(value: T)

  datatype Result<+T> = Ok(value: T) | Err(error: Error) {

    predicate IsFailure() {
      Err?
    }

    function PropagateFailure<U>(): Result<U>
      requires Err?
    {
      Err(error)
    }

    function Extract(): T
      requires Ok?
    {
      value
    }
  }
}
