/** The ways an operation of the chromosome layer can end.
    The Python source signals failure by raising; here a raise becomes a value. */
module Outcomes {

  /** The failures the chromosome layer can raise. */
  datatype Error =
    | ShapeMismatch                // the dna setter's length assertion fails
    | NoGenes                      // kernelize reads gene 0 of an empty gene list
    | MissingKernel(name: string)  // the compiled program has no kernel of that name
    | NotPreexecuted               // a device buffer is read before preexecute_kernels made it

  /** Whether a state-changing call returned normally or raised. */
  datatype Outcome = Done | Raised(error: Error)

  /** The state an object is left in by a call, together with how the call ended.
      When the call raised, `state` is the state at the moment of the raise. */
  datatype Step<S> = Step(state: S, outcome: Outcome)

  /** The value a read-only call returns, or the error it raised. */
  datatype Result<T> = Ok(value: T) | Err(error: Error)

  datatype Option<T> = None | Some(value: T)
}
