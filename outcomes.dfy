/** Failure-carrying results for the Java exceptions the core raises. */
module Outcomes {

  /** A Java reference that may be null, when it holds a value. */
  datatype Option<+T> = None | Some(value: T)

  /** The exceptions of the core, each one a non-recoverable abort. */
  datatype Failure =
    | Unfinished                 // `throw new Unfinished()`: a placeholder path
    | MigrationOfForwarders      // "migration of forwarders not supported."
    | StoringRemotePrimary       // "storing remote primary unsupported"
    | CloneableConflict          // "%s has CLONEABLE conflict"
    | AssertionViolated          // `Assertion.check` failing
    | NullDereference            // a NullPointerException on a null receiver

  /** The outcome of a Java `void` method: it returns or it throws. */
  datatype Outcome = Ok | Fail(failure: Failure)

  /** The outcome of a Java method with a result. */
  datatype Result<+T> = Value(value: T) | Thrown(failure: Failure)
}
