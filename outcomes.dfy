/** Failure-carrying results for the engine's operations.

    Every error the engine raises is a JavaScript TypeError thrown from a
    property access on `undefined` or from a failed property definition; the
    constructors of Fault say where it arose. An operation that throws half
    way leaves its earlier effects in place, so `Outcome` keeps the state
    reached at the throw as well as the fault. */
module Outcomes {

  datatype Option<T> = None | Some(value: T)

  datatype Fault =
    | ReadOfUndefined(key: string)   // `undefined[key]` while walking a state path
    | MissingModule                  // `undefined._children` / `undefined._raw` while walking the module tree
    | SetOnNonObject(key: string)    // grafting a state slice into undefined or a primitive
    | GetterRedefined(name: string)  // defining a getter whose qualified name already exists
    | UnknownMutation(name: string)  // `undefined.forEach` in commit
    | UnknownAction(name: string)    // `undefined.forEach` in dispatch
    | StateIsReadOnly                // assigning `store.state`, an accessor with a getter only

  /** The result of a read that has no effect. */
  datatype Result<T> = Ok(value: T) | Err(fault: Fault)

  /** The state an operation leaves behind, and whether it threw on the way. */
  datatype Outcome<T> = Done(val: T) | Threw(fault: Fault, val: T)

  /** Packs a method's final state and reported fault into an Outcome. */
  function Of<T>(val: T, fault: Option<Fault>): (r: Outcome<T>)
  {
    match fault
    case None => Done(val)
    case Some(f) => Threw(f, val)
  }
}
