/** Optional values, the exceptions the services raise, and a result type that
    carries one of them. Every operation of the model that can throw in the
    original returns a `Result`; an `Err` stands for the exception escaping the
    call, so nothing the call would have persisted is persisted. */
module Wrappers {

  /** A value that may be missing (the `null` of a nullable reference). */
  datatype Option<+T> = None | Some(value: T) {

    predicate IsFailure() {
      None?
    }

    function PropagateFailure<U>(): Option<U>
      requires None?
    {
      None
    }

    function Extract(): T
      requires Some?
    {
      value
    }

    /** The `??` operator: the value, or `default` when missing. */
    function GetOr(default: T): T {
      match this
      case Some(v) => v
      case None => default
    }
  }

  /** The exception classes whose kind decides a branch somewhere in the system. */
  datatype Fault =
    | GrainOperation(reason: string)      // a failed grain guard or grain precondition
    | GrainId(reason: string)             // a grain key that cannot be built
    | InvalidOperation(reason: string)    // an internal consistency check
    | CommandValidation(data: string, reason: string)  // a command the engine rejects as malformed
    | CommandExecution(data: string, reason: string)   // a command that failed while being applied
    | MissingMapper(reason: string)       // an enum value with no mapping
    | KeyNotFound(reason: string)         // a dictionary read of an absent key
    | OperationCanceled                   // the cancellation token fired
    | Unexpected(reason: string)          // any other exception
  {
    /** The exception's `Message`. */
    function Text(): string {
      if OperationCanceled? then "The operation was canceled." else reason
    }

    /** The exception's class name, as `GetType().Name` gives it. */
    function TypeName(): string {
      match this
      case GrainOperation(_) => "GrainOperationException"
      case GrainId(_) => "GrainIdException"
      case InvalidOperation(_) => "InvalidOperationException"
      case CommandValidation(_, _) => "CommandValidationException"
      case CommandExecution(_, _) => "CommandExecutionException"
      case MissingMapper(_) => "MissingMapperException"
      case KeyNotFound(_) => "KeyNotFoundException"
      case OperationCanceled => "OperationCanceledException"
      case Unexpected(_) => "Exception"
    }
  }

  /** Either a value or the exception that escaped instead. */
  datatype Result<+T> = Ok(value: T) | Err(error: Fault) {

    predicate IsFailure() {
      Err?
    }

    function PropagateFailure<U>(): Result<U>
      requires Err?
    {
      Err(error)
    }

    function Extract(): T
      requires Ok?
    {
      value
    }
  }

  /** `Ok(())` when `condition` holds, the given fault otherwise. */
  function Need(condition: bool, fault: Fault): (r: Result<()>)
    ensures r.Ok? <==> condition
    ensures r.Err? ==> r.error == fault
  {
    if condition then Ok(()) else Err(fault)
  }
}
